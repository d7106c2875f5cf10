/** What the rules mean: when a uid is blocked, read off the rules, the uid map, the counters and the
    calendar. Nothing here is computed by the engine's own decision functions. */
module Meaning {
  import opened Rules
  import opened Calendar
  import opened Windows
  import opened Decision
  import opened Foreground
  import opened EngineState
  import opened Wants

  // ---------- which rules concern a uid ----------

  /** The package that a key names: what follows the first colon, or the whole key without one. */
  ghost predicate Names(key: string, name: string) {
    if ':' in key then AfterColon(key, name) else name == key
  }

  ghost predicate AfterColon(key: string, name: string) {
    exists user :: ':' !in user && key == user + ":" + name
  }

  /** The key resolves to the uid, which is an app's, and names no protected package. */
  ghost predicate StandsFor(cfg: Config, key: string, u: Uid) {
    && key in cfg.uidOf && cfg.uidOf[key] == u && u >= 10000
    && forall name | name in cfg.protectedPkgs :: !Names(key, name)
  }

  ghost predicate HasMemberFor(cfg: Config, g: GroupRule, u: Uid) {
    exists m | m in g.members :: StandsFor(cfg, m, u)
  }

  /** The last group with the uid in it governs it. */
  ghost predicate GroupGoverns(cfg: Config, k: nat, u: Uid) {
    var groups := cfg.rules.groups;
    && k < |groups| && HasMemberFor(cfg, groups[k], u)
    && forall j | k < j < |groups| :: !HasMemberFor(cfg, groups[j], u)
  }

  /** Without a group, the last app rule about the uid governs it. */
  ghost predicate AppGoverns(cfg: Config, k: nat, u: Uid) {
    var apps, groups := cfg.rules.apps, cfg.rules.groups;
    && k < |apps| && StandsFor(cfg, apps[k].key, u)
    && (forall j | k < j < |apps| :: !StandsFor(cfg, apps[j].key, u))
    && forall g | g in groups :: !HasMemberFor(cfg, g, u)
  }

  // ---------- what a rule demands ----------

  /** Seconds that count: in the foreground, or running at all, or running in the background. */
  function CountedSecs(m: Meters, u: Uid, scope: string): int {
    var any := if u in m.usageAny then m.usageAny[u] else 0;
    var fg := if u in m.usageFg then m.usageFg[u] else 0;
    if scope == "any" then any
    else if scope != "background" then fg
    else if any <= fg then 0
    else any - fg
  }

  /** Their sum over the members of a pool. */
  function PoolSecs(cfg: Config, m: Meters, members: seq<string>, scope: string): int {
    if members == [] then 0
    else
      (if members[0] in cfg.uidOf then CountedSecs(m, cfg.uidOf[members[0]], scope) else 0)
      + PoolSecs(cfg, m, members[1..], scope)
  }

  /** The number of the minute, since day 0, that it is locally. */
  function LocalMinute(now: nat, zone: Option<int>): int {
    (now + (if zone.Some? && -86400 < zone.value < 86400 then zone.value else 0)) / 60
  }

  /** Some window, opened on some day, covers the minute. */
  ghost predicate SomeWindowOpen(windows: seq<TimeWindow>, minute: int) {
    exists w, day: int | w in windows :: Covers(SpanOf(w), day, minute)
  }

  /** Block windows block inside, all others outside; no windows block nothing. */
  ghost predicate WindowsBlock(tw: TimeWindows, minute: int) {
    tw.windows != [] && (tw.mode == "block" <==> SomeWindowOpen(tw.windows, minute))
  }

  ghost predicate SetBlocks(rules: RuleSet, secs: int, cooling: bool, screenOff: bool, minute: int) {
    || rules.alwaysOn
    || (rules.lockBlock && screenOff)
    || cooling
    || (rules.duration.limitMinutes > 0 && secs >= 60 * rules.duration.limitMinutes)
    || WindowsBlock(rules.timeWindows, minute)
  }

  /** An app rule demands a block: it is enabled, the uid's extension has run out, and a part blocks. */
  ghost predicate AppBlocks(c: Core, a: AppRule, u: Uid, now: nat, screenOff: bool) {
    && a.enabled
    && (u in c.budget.extUntil ==> c.budget.extUntil[u] <= now)
    && SetBlocks(a.rules, CountedSecs(c.meters, u, a.rules.duration.scope),
                 u in c.meters.cooldownUntil && now < c.meters.cooldownUntil[u],
                 screenOff, LocalMinute(now, c.cfg.zone))
  }

  /** The same for a group: its extension is the group's, and a shared pool counts all members and has
      one cooldown. */
  ghost predicate GroupBlocks(c: Core, g: GroupRule, u: Uid, now: nat, screenOff: bool) {
    var scope := g.rules.duration.scope;
    && g.enabled
    && (g.id in c.budget.groupExtUntil ==> c.budget.groupExtUntil[g.id] <= now)
    && SetBlocks(g.rules,
                 (if g.sharedPool then PoolSecs(c.cfg, c.meters, g.members, scope)
                  else CountedSecs(c.meters, u, scope)),
                 (if g.sharedPool
                  then g.id in c.meters.groupCooldownUntil && now < c.meters.groupCooldownUntil[g.id]
                  else u in c.meters.cooldownUntil && now < c.meters.cooldownUntil[u]),
                 screenOff, LocalMinute(now, c.cfg.zone))
  }

  /** The rule that governs the uid demands a block. */
  ghost predicate Blocked(c: Core, u: Uid, now: nat, screenOff: bool) {
    || (exists k: nat :: GroupGoverns(c.cfg, k, u) && GroupBlocks(c, c.cfg.rules.groups[k], u, now, screenOff))
    || (exists k: nat :: AppGoverns(c.cfg, k, u) && AppBlocks(c, c.cfg.rules.apps[k], u, now, screenOff))
  }

  // ---------- keys ----------

  lemma NameOfKey(key: string, name: string)
    ensures Names(key, name) <==> name == BareName(key)
    ensures PackageOf(key) == Some(name) <==> name != "" && AfterColon(key, name)
  {
    var i := ColonIndex(key);
    if i == |key| {
      assert key[..i] == key;
    } else {
      assert key[i] in key;
      assert key == key[..i] + ":" + key[i + 1..];
    }
    if user :| ':' !in user && key == user + ":" + name {
      ColonAfter(user, name);
      assert key[|user| + 1..] == name;
      assert key[|user|] in key;
    }
  }

  lemma StandsForIff(cfg: Config, key: string, u: Uid)
    ensures StandsFor(cfg, key, u) <==> Applies(cfg, key, u)
  {
    hide Names, BareName;
    forall name ensures Names(key, name) <==> name == BareName(key) {
      NameOfKey(key, name);
    }
  }

  lemma HasMemberForIff(cfg: Config, g: GroupRule, u: Uid)
    ensures HasMemberFor(cfg, g, u) <==> HasMember(cfg, g.members, u)
  {
    hide StandsFor, Applies;
    forall m ensures StandsFor(cfg, m, u) <==> Applies(cfg, m, u) {
      StandsForIff(cfg, m, u);
    }
  }

  // ---------- decisions ----------

  lemma {:induction false} PoolSecsSplit(cfg: Config, m: Meters, members: seq<string>, key: string, scope: string)
    ensures PoolSecs(cfg, m, members + [key], scope)
         == PoolSecs(cfg, m, members, scope) + (if key in cfg.uidOf then CountedSecs(m, cfg.uidOf[key], scope) else 0)
  {
    hide CountedSecs;
    if members == [] {
      assert PoolSecs(cfg, m, [key][1..], scope) == 0;
    } else {
      assert (members + [key])[0] == members[0] && (members + [key])[1..] == members[1..] + [key];
      PoolSecsSplit(cfg, m, members[1..], key, scope);
    }
  }

  lemma CountedIsScoped(m: Meters, u: Uid, scope: string)
    ensures CountedSecs(m, u, scope) == ScopedUsage(m, u, scope)
  {}

  lemma {:induction false} PoolSecsIsPooled(cfg: Config, m: Meters, members: seq<string>, scope: string)
    ensures PoolSecs(cfg, m, members, scope) == PooledUsage(cfg.uidOf, m, members, scope)
  {
    hide CountedSecs, ScopedUsage;
    if members == [] {
    } else {
      var n := |members| - 1;
      PoolSecsIsPooled(cfg, m, members[..n], scope);
      assert members == members[..n] + [members[n]];
      PoolSecsSplit(cfg, m, members[..n], members[n], scope);
      if members[n] in cfg.uidOf {
        CountedIsScoped(m, cfg.uidOf[members[n]], scope);
      }
    }
  }

  lemma WindowsMean(windows: seq<TimeWindow>, now: nat, zone: Option<int>)
    ensures InAny(windows, NowMinute(now, zone), NowWeekday(now, zone))
        <==> SomeWindowOpen(windows, LocalMinute(now, zone))
  {
    hide Covers, InSpan, MinuteOf, Weekday, DayOf, ParseHhmm;
    var local := LocalSecs(now, zone);
    forall w ensures InWindow(w, NowMinute(now, zone), NowWeekday(now, zone))
                <==> exists day: int :: Covers(SpanOf(w), day, LocalMinute(now, zone))
    {
      SecondToMinute(SpanOf(w), local);
      WindowMeaning(SpanOf(w), local / 60);
    }
  }

  /** The priority list of the decision is a disjunction, once no extension runs. */
  lemma EvalMeans(rules: RuleSet, now: nat, zone: Option<int>, ext: bool, secs: nat, cooling: bool, off: bool)
    ensures Eval(rules, NowMinute(now, zone), NowWeekday(now, zone), ext,
                 rules.duration.limitMinutes > 0 && secs >= rules.duration.limitMinutes * 60, cooling, off)
        <==> !ext && SetBlocks(rules, secs, cooling, off, LocalMinute(now, zone))
  {
    hide InAny, SomeWindowOpen, NowMinute, NowWeekday, LocalMinute;
    WindowsMean(rules.timeWindows.windows, now, zone);
  }

  lemma AppDecisionMeans(c: Core, a: AppRule, u: Uid, now: nat, off: bool)
    ensures AppDecision(c, a, u, now, off) <==> AppBlocks(c, a, u, now, off)
  {
    hide Eval, SetBlocks, NowMinute, NowWeekday, LocalMinute, CountedSecs, ScopedUsage;
    CountedIsScoped(c.meters, u, a.rules.duration.scope);
    EvalMeans(a.rules, now, c.cfg.zone, Active(c.budget.extUntil, u, now),
              ScopedUsage(c.meters, u, a.rules.duration.scope), Active(c.meters.cooldownUntil, u, now), off);
  }

  lemma GroupDecisionMeans(c: Core, g: GroupRule, u: Uid, now: nat, off: bool)
    ensures GroupDecision(c, g, u, now, off) <==> GroupBlocks(c, g, u, now, off)
  {
    hide Eval, SetBlocks, NowMinute, NowWeekday, LocalMinute, CountedSecs, ScopedUsage, PoolSecs, PooledUsage;
    var scope := g.rules.duration.scope;
    CountedIsScoped(c.meters, u, scope);
    PoolSecsIsPooled(c.cfg, c.meters, g.members, scope);
    EvalMeans(g.rules, now, c.cfg.zone, Active(c.budget.groupExtUntil, g.id, now),
      if g.sharedPool then PooledUsage(c.cfg.uidOf, c.meters, g.members, scope) else ScopedUsage(c.meters, u, scope),
      if g.sharedPool then Active(c.meters.groupCooldownUntil, g.id, now) else Active(c.meters.cooldownUntil, u, now),
      off);
  }

  // ---------- the governing rule ----------

  lemma {:induction false} LastGroupIs(cfg: Config, groups: seq<GroupRule>, u: Uid, k: nat)
    requires k < |groups| && HasMember(cfg, groups[k].members, u)
    requires forall j | k < j < |groups| :: !HasMember(cfg, groups[j].members, u)
    ensures LastGroup(cfg, groups, u) == Some(groups[k])
    decreases |groups|
  {
    hide HasMember;
    var n := |groups| - 1;
    if k < n {
      LastGroupIs(cfg, groups[..n], u, k);
    }
  }

  lemma {:induction false} LastAppIs(cfg: Config, apps: seq<AppRule>, u: Uid, k: nat)
    requires k < |apps| && Applies(cfg, apps[k].key, u)
    requires forall j | k < j < |apps| :: !Applies(cfg, apps[j].key, u)
    ensures LastApp(cfg, apps, u) == Some(apps[k])
    decreases |apps|
  {
    hide Applies;
    var n := |apps| - 1;
    if k < n {
      LastAppIs(cfg, apps[..n], u, k);
    }
  }

  lemma {:induction false} SomeLastGroup(cfg: Config, groups: seq<GroupRule>, u: Uid) returns (k: nat)
    requires LastGroup(cfg, groups, u).Some?
    ensures k < |groups| && HasMember(cfg, groups[k].members, u)
    ensures forall j | k < j < |groups| :: !HasMember(cfg, groups[j].members, u)
  {
    hide HasMember;
    k := |groups| - 1;
    if !HasMember(cfg, groups[k].members, u) {
      k := SomeLastGroup(cfg, groups[..k], u);
    }
  }

  lemma {:induction false} SomeLastApp(cfg: Config, apps: seq<AppRule>, u: Uid) returns (k: nat)
    requires LastApp(cfg, apps, u).Some?
    ensures k < |apps| && Applies(cfg, apps[k].key, u)
    ensures forall j | k < j < |apps| :: !Applies(cfg, apps[j].key, u)
  {
    hide Applies;
    k := |apps| - 1;
    if !Applies(cfg, apps[k].key, u) {
      k := SomeLastApp(cfg, apps[..k], u);
    }
  }

  lemma {:induction false} NoGroupFor(cfg: Config, groups: seq<GroupRule>, u: Uid)
    requires LastGroup(cfg, groups, u).None?
    ensures forall g | g in groups :: !HasMember(cfg, g.members, u)
  {
    hide HasMember;
    if groups == [] {
    } else {
      NoGroupFor(cfg, groups[..|groups| - 1], u);
      forall g | g in groups ensures g in groups[..|groups| - 1] || g == groups[|groups| - 1] {}
    }
  }

  /** The governing rule is the one the engine's passes leave in place. */
  lemma GovernsIff(cfg: Config, u: Uid)
    ensures var g, a := LastGroup(cfg, cfg.rules.groups, u), LastApp(cfg, cfg.rules.apps, u);
      && (forall k: nat | GroupGoverns(cfg, k, u) :: g == Some(cfg.rules.groups[k]))
      && (g.Some? ==> exists k: nat :: GroupGoverns(cfg, k, u) && g.value == cfg.rules.groups[k])
      && (forall k: nat | AppGoverns(cfg, k, u) :: g.None? && a == Some(cfg.rules.apps[k]))
      && (g.None? && a.Some? ==> exists k: nat :: AppGoverns(cfg, k, u) && a.value == cfg.rules.apps[k])
  {
    hide HasMember, HasMemberFor, StandsFor, Applies, LastGroup, LastApp;
    var groups, apps := cfg.rules.groups, cfg.rules.apps;
    forall g ensures HasMemberFor(cfg, g, u) <==> HasMember(cfg, g.members, u) { HasMemberForIff(cfg, g, u); }
    forall key ensures StandsFor(cfg, key, u) <==> Applies(cfg, key, u) { StandsForIff(cfg, key, u); }
    forall k: nat | GroupGoverns(cfg, k, u) ensures LastGroup(cfg, groups, u) == Some(groups[k]) {
      LastGroupIs(cfg, groups, u, k);
    }
    forall k: nat | AppGoverns(cfg, k, u)
      ensures LastGroup(cfg, groups, u).None? && LastApp(cfg, apps, u) == Some(apps[k])
    {
      NoLastGroup(cfg, groups, u);
      LastAppIs(cfg, apps, u, k);
    }
    if LastGroup(cfg, groups, u).Some? {
      var k := SomeLastGroup(cfg, groups, u);
      assert GroupGoverns(cfg, k, u);
    } else {
      NoGroupFor(cfg, groups, u);
      if LastApp(cfg, apps, u).Some? {
        var k := SomeLastApp(cfg, apps, u);
        assert AppGoverns(cfg, k, u);
      }
    }
  }

  /** For any given answer about the screen the wanted uids are those that the rules block. */
  lemma WantedIff(c: Core, u: Uid, now: nat, off: bool)
    ensures u in WantedBlocks(c, now, off) <==> Blocked(c, u, now, off)
  {
    hide WantedBlocks, AppDecision, GroupDecision, AppBlocks, GroupBlocks, GroupGoverns, AppGoverns;
    WantRefinesGoverning(c, u, now, off);
    GovernsIff(c.cfg, u);
    forall k: nat | GroupGoverns(c.cfg, k, u) ensures k < |c.cfg.rules.groups| { GroupInRange(c.cfg, k, u); }
    forall g { GroupDecisionMeans(c, g, u, now, off); }
    forall a { AppDecisionMeans(c, a, u, now, off); }
  }

  lemma GroupInRange(cfg: Config, k: nat, u: Uid)
    ensures GroupGoverns(cfg, k, u) ==> k < |cfg.rules.groups|
    ensures AppGoverns(cfg, k, u) ==> k < |cfg.rules.apps|
  {}

  // ---------- the screen ----------

  /** The screen state matters to enabled rules with lock block only, and for those it is probed. */
  lemma ScreenSeen(c: Core, u: Uid, now: nat, s: Sample)
    ensures forall a | a in c.cfg.rules.apps ::
      AppBlocks(c, a, u, now, SeenScreenOff(c.cfg.rules, s)) == AppBlocks(c, a, u, now, s.screenOff)
    ensures forall g | g in c.cfg.rules.groups ::
      GroupBlocks(c, g, u, now, SeenScreenOff(c.cfg.rules, s)) == GroupBlocks(c, g, u, now, s.screenOff)
  {
    hide WindowsBlock, PoolSecs, CountedSecs, LocalMinute;
    if !NeedsScreen(c.cfg.rules) {
      forall a | a in c.cfg.rules.apps && a.enabled ensures !a.rules.lockBlock {
        assert a.rules in EnabledSets(c.cfg.rules);
      }
      forall g | g in c.cfg.rules.groups && g.enabled ensures !g.rules.lockBlock {
        assert g.rules in EnabledSets(c.cfg.rules);
      }
    }
  }

  /** What a tick wants blocked: exactly the uids whose governing rule, the last group with the uid in it or
      else the last app rule about it, is enabled, has no extension running, and is always on, or locks with
      the screen off, or cools down, or has its limit used up, or has windows that block at this minute. */
  lemma BlockedIff(c: Core, u: Uid, now: nat, s: Sample)
    ensures u in WantedBlocks(c, now, SeenScreenOff(c.cfg.rules, s)) <==> Blocked(c, u, now, s.screenOff)
  {
    hide WantedBlocks, AppBlocks, GroupBlocks, GroupGoverns, AppGoverns, SeenScreenOff;
    WantedIff(c, u, now, SeenScreenOff(c.cfg.rules, s));
    ScreenSeen(c, u, now, s);
    forall k: nat { GroupInRange(c.cfg, k, u); }
  }

  /** Nothing is blocked on account of protected packages alone. */
  lemma ProtectedIsNeverBlocked(c: Core, u: Uid, now: nat, s: Sample)
    requires forall key | key in c.cfg.uidOf && c.cfg.uidOf[key] == u ::
      exists name | name in c.cfg.protectedPkgs :: Names(key, name)
    ensures u !in WantedBlocks(c, now, SeenScreenOff(c.cfg.rules, s))
  {
    hide WantedBlocks, SeenScreenOff, Names, AppBlocks, GroupBlocks;
    BlockedIff(c, u, now, s);
  }

  // ---------- the names that identify a blocked uid ----------

  /** Some rule, governing or not, demands a block of the uid on account of the package. */
  ghost predicate BlockedAs(c: Core, u: Uid, name: string, now: nat, screenOff: bool) {
    && name != ""
    && (|| (exists a | a in c.cfg.rules.apps ::
              StandsFor(c.cfg, a.key, u) && AfterColon(a.key, name) && AppBlocks(c, a, u, now, screenOff))
        || (exists g, m | g in c.cfg.rules.groups && m in g.members ::
              StandsFor(c.cfg, m, u) && AfterColon(m, name) && GroupBlocks(c, g, u, now, screenOff)))
  }

  lemma {:induction false} AppVerdictIff(c: Core, apps: seq<AppRule>, now: nat, off: bool, v: Verdict)
    ensures v in AppVerdicts(c, apps, now, off) <==> exists a | a in apps ::
      Applies(c.cfg, a.key, v.uid) && v.key == a.key && v.block == AppDecision(c, a, v.uid, now, off)
  {
    hide AppDecision;
    if apps == [] {
    } else {
      var n := |apps| - 1;
      AppVerdictIff(c, apps[..n], now, off, v);
      assert forall a :: a in apps <==> a in apps[..n] || a == apps[n];
    }
  }

  lemma {:induction false} MemberVerdictIff(c: Core, g: GroupRule, members: seq<string>, now: nat, off: bool,
                                            v: Verdict)
    ensures v in MemberVerdicts(c, g, members, now, off) <==>
      v.key in members && Applies(c.cfg, v.key, v.uid) && v.block == GroupDecision(c, g, v.uid, now, off)
  {
    hide GroupDecision;
    if members == [] {
    } else {
      var n := |members| - 1;
      MemberVerdictIff(c, g, members[..n], now, off, v);
      assert forall m :: m in members <==> m in members[..n] || m == members[n];
    }
  }

  lemma {:induction false} GroupVerdictIff(c: Core, groups: seq<GroupRule>, now: nat, off: bool, v: Verdict)
    ensures v in GroupVerdicts(c, groups, now, off) <==> exists g | g in groups ::
      v.key in g.members && Applies(c.cfg, v.key, v.uid) && v.block == GroupDecision(c, g, v.uid, now, off)
  {
    hide GroupDecision, Applies, MemberVerdicts;
    if groups == [] {
    } else {
      var n := |groups| - 1;
      GroupVerdictIff(c, groups[..n], now, off, v);
      MemberVerdictIff(c, groups[n], groups[n].members, now, off, v);
      assert forall g :: g in groups <==> g in groups[..n] || g == groups[n];
    }
  }

  /** The name index lists for a uid exactly the packages on whose account some rule demands a block. */
  lemma NamesIff(c: Core, u: Uid, now: nat, s: Sample)
    ensures var index := BlockIndex(Verdicts(c, now, SeenScreenOff(c.cfg.rules, s)));
      forall name :: u in index && name in index[u] <==> BlockedAs(c, u, name, now, s.screenOff)
  {
    hide BlockIndex, Verdicts, SeenScreenOff, Named;
    var off := SeenScreenOff(c.cfg.rules, s);
    BlockIndexSpec(Verdicts(c, now, off), u);
    forall name ensures Named(Verdicts(c, now, off), u, name) <==> BlockedAs(c, u, name, now, s.screenOff) {
      NamedIff(c, u, name, now, s);
    }
  }

  lemma NamedIff(c: Core, u: Uid, name: string, now: nat, s: Sample)
    ensures Named(Verdicts(c, now, SeenScreenOff(c.cfg.rules, s)), u, name) <==> BlockedAs(c, u, name, now, s.screenOff)
  {
    hide Applies, AppDecision, GroupDecision, AppBlocks, GroupBlocks, StandsFor, AfterColon, SeenScreenOff, PackageOf;
    hide AppVerdicts, GroupVerdicts;
    var off := SeenScreenOff(c.cfg.rules, s);
    ScreenSeen(c, u, now, s);
    forall key ensures PackageOf(key) == Some(name) <==> name != "" && AfterColon(key, name) { NameOfKey(key, name); }
    forall key ensures StandsFor(c.cfg, key, u) <==> Applies(c.cfg, key, u) { StandsForIff(c.cfg, key, u); }
    forall a { AppDecisionMeans(c, a, u, now, off); }
    forall g { GroupDecisionMeans(c, g, u, now, off); }
    var vs, cfg := Verdicts(c, now, off), c.cfg;
    if Named(vs, u, name) {
      var v :| v in vs && Contributes(v, u, name);
      AppVerdictIff(c, cfg.rules.apps, now, off, v);
      GroupVerdictIff(c, cfg.rules.groups, now, off, v);
    }
    if a :| a in cfg.rules.apps && StandsFor(cfg, a.key, u) && AppBlocks(c, a, u, now, s.screenOff)
            && name != "" && AfterColon(a.key, name) {
      AppVerdictIff(c, cfg.rules.apps, now, off, Verdict(u, a.key, true));
      assert Contributes(Verdict(u, a.key, true), u, name);
    }
    if g, m :| g in cfg.rules.groups && m in g.members && StandsFor(cfg, m, u) && GroupBlocks(c, g, u, now, s.screenOff)
               && name != "" && AfterColon(m, name) {
      GroupVerdictIff(c, cfg.rules.groups, now, off, Verdict(u, m, true));
      assert Contributes(Verdict(u, m, true), u, name);
    }
  }
}
