/** The engine's bookkeeping state and the specification of each of its operations. */
module EngineState {
  import opened Sorting
  import opened Rules
  import opened Calendar
  import opened Decision
  import opened Wake
  import opened Foreground

  const MAX_TICK_SECS := 60
  const EXTENSION_CAP := 120
  const FIRST_APP_UID := 10000

  /** The rules in force and what they resolve to. */
  datatype Config = Config(
    rules: RuleFile,
    uidOf: map<string, Uid>,
    protectedPkgs: set<string>,
    zone: Option<int>)

  /** Extension deadlines and the minutes granted today, per uid and per group. */
  datatype Budget = Budget(
    extUntil: map<Uid, nat>,
    groupExtUntil: map<string, nat>,
    extGranted: map<Uid, nat>,
    groupExtGranted: map<string, nat>)

  /** Cooldown deadlines and today's usage in seconds, running at all and in the foreground. */
  datatype Meters = Meters(
    cooldownUntil: map<Uid, nat>,
    groupCooldownUntil: map<string, nat>,
    usageAny: map<Uid, nat>,
    usageFg: map<Uid, nat>)

  datatype Core = Core(
    cfg: Config,
    budget: Budget,
    meters: Meters,
    lastTick: Option<nat>,
    lastDay: Option<int>)

  const EMPTY_BUDGET := Budget(map[], map[], map[], map[])
  const EMPTY_METERS := Meters(map[], map[], map[], map[])

  function Get<K(==)>(m: map<K, nat>, k: K): nat {
    if k in m then m[k] else 0
  }

  /** A deadline map entry is active until its second. */
  predicate Active<K(==)>(m: map<K, nat>, k: K, now: nat) {
    k in m && now < m[k]
  }

  // ---------- daily reset ----------

  function DailyReset(c: Core, now: nat): Core {
    var today := Today(now, c.cfg.zone);
    if c.lastDay == Some(today) then c
    else c.(lastDay := Some(today), budget := EMPTY_BUDGET, meters := EMPTY_METERS)
  }

  // ---------- usage accounting ----------

  predicate NeedsUsage(rules: RuleFile) {
    exists s | s in EnabledSets(rules) :: s.duration.limitMinutes > 0
  }

  predicate NeedsLiveScan(rules: RuleFile) {
    exists s | s in EnabledSets(rules) :: s.duration.limitMinutes > 0 && s.duration.scope != "foreground"
  }

  predicate NeedsScreen(rules: RuleFile) {
    exists s | s in EnabledSets(rules) :: s.lockBlock
  }

  function DurationTargets(cfg: Config): set<Uid> {
    (set a | a in cfg.rules.apps && a.enabled && a.rules.duration.limitMinutes > 0 && a.key in cfg.uidOf
       :: cfg.uidOf[a.key])
    + (set g, m | g in cfg.rules.groups && g.enabled && g.rules.duration.limitMinutes > 0
         && m in g.members && m in cfg.uidOf :: cfg.uidOf[m])
  }

  /** Seconds since the last tick, at most a minute. */
  function Elapsed(lastTick: Option<nat>, now: nat): nat {
    if lastTick.None? || now < lastTick.value then 0
    else Min(now - lastTick.value, MAX_TICK_SECS)
  }

  function AddToAll(m: map<Uid, nat>, uids: set<Uid>, secs: nat): map<Uid, nat> {
    m + map u | u in uids :: Get(m, u) + secs
  }

  function Accumulate(cfg: Config, m: Meters, elapsed: nat, s: Sample): Meters {
    if elapsed > 0 && NeedsUsage(cfg.rules) then
      var targets, needLive := DurationTargets(cfg), NeedsLiveScan(cfg.rules);
      m.(usageAny := AddToAll(m.usageAny, LiveUids(s, needLive, targets), elapsed),
         usageFg := AddToAll(m.usageFg, FgUids(s, needLive, targets), elapsed))
    else m
  }

  /** Usage under a counting scope; anything but "any" and "background" counts foreground time. */
  function Scoped(any: nat, fg: nat, scope: string): nat {
    if scope == "background" then (if any < fg then 0 else any - fg)
    else if scope == "any" then any
    else fg
  }

  function ScopedUsage(m: Meters, uid: Uid, scope: string): nat {
    Scoped(Get(m.usageAny, uid), Get(m.usageFg, uid), scope)
  }

  /** Usage pooled over the members that resolve to a uid, once per member entry. */
  function PooledUsage(uidOf: map<string, Uid>, m: Meters, members: seq<string>, scope: string): nat {
    if members == [] then 0
    else
      var rest, key := members[..|members| - 1], members[|members| - 1];
      PooledUsage(uidOf, m, rest, scope) + (if key in uidOf then ScopedUsage(m, uidOf[key], scope) else 0)
  }

  predicate OverDuration(c: Core, d: DurationRule, uid: Uid, group: Option<GroupRule>) {
    d.limitMinutes > 0 &&
    (if group.Some? && group.value.sharedPool
     then PooledUsage(c.cfg.uidOf, c.meters, group.value.members, d.scope)
     else ScopedUsage(c.meters, uid, d.scope)) >= d.limitMinutes * 60
  }

  // ---------- cooldowns ----------

  datatype UidJob = UidJob(uid: Uid, d: DurationRule)

  predicate HasCooldown(d: DurationRule) { d.limitMinutes > 0 && d.freezeMinutes > 0 }

  function AppJobs(uidOf: map<string, Uid>, apps: seq<AppRule>): (r: seq<UidJob>)
    ensures forall a | a in apps && a.enabled && HasCooldown(a.rules.duration) && a.key in uidOf ::
      UidJob(uidOf[a.key], a.rules.duration) in r
  {
    if apps == [] then []
    else
      var rest, a := AppJobs(uidOf, apps[..|apps| - 1]), apps[|apps| - 1];
      if a.enabled && HasCooldown(a.rules.duration) && a.key in uidOf
      then rest + [UidJob(uidOf[a.key], a.rules.duration)]
      else rest
  }

  function MemberJobs(uidOf: map<string, Uid>, d: DurationRule, members: seq<string>): (r: seq<UidJob>)
    ensures forall m | m in members && m in uidOf :: UidJob(uidOf[m], d) in r
  {
    if members == [] then []
    else
      var rest, m := MemberJobs(uidOf, d, members[..|members| - 1]), members[|members| - 1];
      if m in uidOf then rest + [UidJob(uidOf[m], d)] else rest
  }

  function GroupMemberJobs(uidOf: map<string, Uid>, groups: seq<GroupRule>): (r: seq<UidJob>)
    ensures forall g, m | g in groups && g.enabled && HasCooldown(g.rules.duration) && !g.sharedPool
      && m in g.members && m in uidOf :: UidJob(uidOf[m], g.rules.duration) in r
  {
    if groups == [] then []
    else
      var rest, g := GroupMemberJobs(uidOf, groups[..|groups| - 1]), groups[|groups| - 1];
      if g.enabled && HasCooldown(g.rules.duration) && !g.sharedPool
      then rest + MemberJobs(uidOf, g.rules.duration, g.members)
      else rest
  }

  function PoolJobs(groups: seq<GroupRule>): (r: seq<GroupRule>)
    ensures forall g :: g in r <==> g in groups && g.enabled && HasCooldown(g.rules.duration) && g.sharedPool
  {
    if groups == [] then []
    else
      var rest, g := PoolJobs(groups[..|groups| - 1]), groups[|groups| - 1];
      assert forall x :: x in groups <==> x in groups[..|groups| - 1] || x == g;
      if g.enabled && HasCooldown(g.rules.duration) && g.sharedPool then rest + [g] else rest
  }

  function UidJobs(cfg: Config): seq<UidJob> {
    AppJobs(cfg.uidOf, cfg.rules.apps) + GroupMemberJobs(cfg.uidOf, cfg.rules.groups)
  }

  function ZeroUsage(m: Meters, uid: Uid): Meters {
    m.(usageAny := m.usageAny[uid := 0], usageFg := m.usageFg[uid := 0])
  }

  function ZeroMembers(uidOf: map<string, Uid>, m: Meters, members: seq<string>): Meters {
    if members == [] then m
    else
      var m1, key := ZeroMembers(uidOf, m, members[..|members| - 1]), members[|members| - 1];
      if key in uidOf then ZeroUsage(m1, uidOf[key]) else m1
  }

  /** Ends an expired per-uid cooldown and starts a new one when the period is used up. */
  function MaintainUid(m: Meters, uid: Uid, d: DurationRule, now: nat): Meters {
    if Active(m.cooldownUntil, uid, now) then m
    else
      var m1 := if uid in m.cooldownUntil
                then ZeroUsage(m.(cooldownUntil := m.cooldownUntil - {uid}), uid) else m;
      if ScopedUsage(m1, uid, d.scope) >= d.limitMinutes * 60
      then m1.(cooldownUntil := m1.cooldownUntil[uid := now + d.freezeMinutes * 60])
      else m1
  }

  /** The same cycle for a shared pool. */
  function MaintainGroup(uidOf: map<string, Uid>, m: Meters, g: GroupRule, now: nat): Meters {
    if Active(m.groupCooldownUntil, g.id, now) then m
    else
      var m1 := if g.id in m.groupCooldownUntil
                then ZeroMembers(uidOf, m.(groupCooldownUntil := m.groupCooldownUntil - {g.id}), g.members) else m;
      if PooledUsage(uidOf, m1, g.members, g.rules.duration.scope) >= g.rules.duration.limitMinutes * 60
      then m1.(groupCooldownUntil := m1.groupCooldownUntil[g.id := now + g.rules.duration.freezeMinutes * 60])
      else m1
  }

  function RunUidJobs(m: Meters, jobs: seq<UidJob>, now: nat): Meters {
    if jobs == [] then m
    else
      var j := jobs[|jobs| - 1];
      MaintainUid(RunUidJobs(m, jobs[..|jobs| - 1], now), j.uid, j.d, now)
  }

  function RunPoolJobs(uidOf: map<string, Uid>, m: Meters, jobs: seq<GroupRule>, now: nat): Meters {
    if jobs == [] then m
    else MaintainGroup(uidOf, RunPoolJobs(uidOf, m, jobs[..|jobs| - 1], now), jobs[|jobs| - 1], now)
  }

  function Maintain(cfg: Config, m: Meters, now: nat): Meters {
    RunPoolJobs(cfg.uidOf, RunUidJobs(m, UidJobs(cfg), now), PoolJobs(cfg.rules.groups), now)
  }

  // ---------- reload ----------

  function FindGroup(groups: seq<GroupRule>, id: string): Option<GroupRule> {
    if groups == [] then None
    else if groups[0].id == id then Some(groups[0])
    else FindGroup(groups[1..], id)
  }

  /** The group is still there and pools its members' time differently now. */
  predicate Toggled(g: GroupRule, groups: seq<GroupRule>) {
    var h := FindGroup(groups, g.id);
    h.Some? && h.value.sharedPool != g.sharedPool
  }

  function ToggledIds(before: seq<GroupRule>, groups: seq<GroupRule>): set<string> {
    set g | g in before && Toggled(g, groups) :: g.id
  }

  /** The uids of the members, in the new rules, of such groups. */
  function ToggledUids(before: seq<GroupRule>, groups: seq<GroupRule>, uidOf: map<string, Uid>): set<Uid> {
    set g, m | g in before && Toggled(g, groups) && m in FindGroup(groups, g.id).value.members && m in uidOf :: uidOf[m]
  }

  /** Cooldowns started under another pooling mode are dropped; usage is kept. */
  function DropToggled(m: Meters, before: seq<GroupRule>, cfg: Config): Meters {
    m.(cooldownUntil := m.cooldownUntil - ToggledUids(before, cfg.rules.groups, cfg.uidOf),
       groupCooldownUntil := m.groupCooldownUntil - ToggledIds(before, cfg.rules.groups))
  }

  /** The state after a reload that took over a configuration. */
  function Reloaded(c: Core, cfg: Config): Core {
    c.(cfg := cfg, meters := DropToggled(c.meters, c.cfg.rules.groups, cfg))
  }

  /** Groups have distinct ids: they are the keys of an ordered map. */
  ghost predicate DistinctIds(groups: seq<GroupRule>) {
    forall i, j | 0 <= i < j < |groups| :: groups[i].id != groups[j].id
  }

  lemma {:induction false} FindsItself(groups: seq<GroupRule>, k: nat)
    requires DistinctIds(groups) && k < |groups|
    ensures FindGroup(groups, groups[k].id) == Some(groups[k])
  {
    if k == 0 {
    } else {
      FindsItself(groups[1..], k - 1);
    }
  }

  /** Reloading the same groups drops no cooldown. */
  lemma SameGroupsToggleNothing(m: Meters, cfg: Config)
    requires DistinctIds(cfg.rules.groups)
    ensures DropToggled(m, cfg.rules.groups, cfg) == m
  {
    var groups := cfg.rules.groups;
    forall g | g in groups ensures !Toggled(g, groups) {
      var k :| 0 <= k < |groups| && groups[k] == g;
      FindsItself(groups, k);
    }
    assert ToggledIds(groups, groups) == {} && ToggledUids(groups, groups, cfg.uidOf) == {};
  }

  lemma {:induction false} FindGroupIs(groups: seq<GroupRule>, id: string)
    ensures match FindGroup(groups, id)
      case Some(g) => g in groups && g.id == id
      case None => forall g | g in groups :: g.id != id
  {
    if groups == [] {
    } else {
      FindGroupIs(groups[1..], id);
    }
  }

  lemma FindsMember(groups: seq<GroupRule>, g: GroupRule)
    requires DistinctIds(groups) && g in groups
    ensures FindGroup(groups, g.id) == Some(g)
  {
    var k :| 0 <= k < |groups| && groups[k] == g;
    FindsItself(groups, k);
  }

  /** The group was there before with the other pooling mode. */
  predicate ChangesPooling(before: seq<GroupRule>, g: GroupRule) {
    exists h | h in before :: h.id == g.id && h.sharedPool != g.sharedPool
  }

  /** Some group that changes its pooling has a member, now, that resolves to the uid. */
  predicate InChangedGroup(before: seq<GroupRule>, cfg: Config, u: Uid) {
    exists g, key | g in cfg.rules.groups && key in g.members ::
      ChangesPooling(before, g) && key in cfg.uidOf && cfg.uidOf[key] == u
  }

  /** A reload drops exactly the cooldowns of the groups that pool differently now and of the uids of
      their members, and changes no other cooldown and no usage. */
  lemma ToggleDropsExactly(m: Meters, before: seq<GroupRule>, cfg: Config)
    requires DistinctIds(cfg.rules.groups)
    ensures var e := DropToggled(m, before, cfg);
      && e.usageAny == m.usageAny && e.usageFg == m.usageFg
      && (forall id :: id in e.groupCooldownUntil <==>
            id in m.groupCooldownUntil && !exists g | g in cfg.rules.groups :: g.id == id && ChangesPooling(before, g))
      && (forall u :: u in e.cooldownUntil <==> u in m.cooldownUntil && !InChangedGroup(before, cfg, u))
      && (forall id | id in e.groupCooldownUntil :: e.groupCooldownUntil[id] == m.groupCooldownUntil[id])
      && (forall u | u in e.cooldownUntil :: e.cooldownUntil[u] == m.cooldownUntil[u])
  {
    hide ChangesPooling, Toggled, FindGroup, DistinctIds;
    var groups := cfg.rules.groups;
    forall id ensures id in ToggledIds(before, groups) <==>
      exists g | g in groups :: g.id == id && ChangesPooling(before, g)
    {
      ToggledIff(before, groups, id);
    }
    forall u ensures u in ToggledUids(before, groups, cfg.uidOf) <==> InChangedGroup(before, cfg, u) {
      ToggledUidIff(before, cfg, u);
    }
  }

  lemma ToggledIs(before: seq<GroupRule>, groups: seq<GroupRule>, g: GroupRule, h: GroupRule)
    requires DistinctIds(groups) && g in groups && h in before && h.id == g.id
    ensures FindGroup(groups, h.id) == Some(g) && (Toggled(h, groups) <==> h.sharedPool != g.sharedPool)
  {
    FindsMember(groups, g);
  }

  lemma ToggledIff(before: seq<GroupRule>, groups: seq<GroupRule>, id: string)
    requires DistinctIds(groups)
    ensures id in ToggledIds(before, groups) <==> exists g | g in groups :: g.id == id && ChangesPooling(before, g)
  {
    hide FindGroup, DistinctIds, Toggled;
    if h :| h in before && Toggled(h, groups) && h.id == id {
      var g := ToggledGroup(before, groups, h);
      assert ChangesPooling(before, g);
    }
    if g :| g in groups && g.id == id && ChangesPooling(before, g) {
      var h :| h in before && h.id == g.id && h.sharedPool != g.sharedPool;
      ToggledIs(before, groups, g, h);
    }
  }

  lemma ToggledGroup(before: seq<GroupRule>, groups: seq<GroupRule>, h: GroupRule) returns (g: GroupRule)
    requires DistinctIds(groups) && h in before && Toggled(h, groups)
    ensures g in groups && FindGroup(groups, h.id) == Some(g) && g.id == h.id && g.sharedPool != h.sharedPool
  {
    FindGroupIs(groups, h.id);
    g := FindGroup(groups, h.id).value;
  }

  lemma ToggledUidIff(before: seq<GroupRule>, cfg: Config, u: Uid)
    requires DistinctIds(cfg.rules.groups)
    ensures u in ToggledUids(before, cfg.rules.groups, cfg.uidOf) <==> InChangedGroup(before, cfg, u)
  {
    var groups := cfg.rules.groups;
    if u in ToggledUids(before, groups, cfg.uidOf) {
      hide FindGroup, DistinctIds;
      var h, m :| h in before && Toggled(h, groups) && m in FindGroup(groups, h.id).value.members
        && m in cfg.uidOf && cfg.uidOf[m] == u;
      var g := ToggledGroup(before, groups, h);
      assert ChangesPooling(before, g);
    }
    if g, m :| g in groups && m in g.members && ChangesPooling(before, g) && m in cfg.uidOf && cfg.uidOf[m] == u {
      hide FindGroup, DistinctIds;
      var h :| h in before && h.id == g.id && h.sharedPool != g.sharedPool;
      ToggledIs(before, groups, g, h);
    }
  }

  // ---------- wanted state ----------

  /** One rule's verdict about one uid. */
  datatype Verdict = Verdict(uid: Uid, key: string, block: bool)

  /** "user:pkg" without the user, the whole key when there is no colon. */
  function BareName(key: string): string {
    var i := ColonIndex(key);
    if i == |key| then key else key[i + 1..]
  }

  function PackageOf(key: string): Option<string> {
    var i := ColonIndex(key);
    if i >= |key| - 1 then None else Some(key[i + 1..])
  }

  predicate IsProtected(cfg: Config, key: string) { BareName(key) in cfg.protectedPkgs }

  /** Keys a rule may block: resolved to an app uid and not protected. */
  predicate Blockable(cfg: Config, key: string) {
    key in cfg.uidOf && cfg.uidOf[key] >= FIRST_APP_UID && !IsProtected(cfg, key)
  }

  predicate AppDecision(c: Core, a: AppRule, uid: Uid, now: nat, off: bool) {
    a.enabled &&
    Eval(a.rules, NowMinute(now, c.cfg.zone), NowWeekday(now, c.cfg.zone),
         Active(c.budget.extUntil, uid, now),
         OverDuration(c, a.rules.duration, uid, None),
         Active(c.meters.cooldownUntil, uid, now), off)
  }

  predicate GroupDecision(c: Core, g: GroupRule, uid: Uid, now: nat, off: bool) {
    g.enabled &&
    Eval(g.rules, NowMinute(now, c.cfg.zone), NowWeekday(now, c.cfg.zone),
         Active(c.budget.groupExtUntil, g.id, now),
         OverDuration(c, g.rules.duration, uid, Some(g)),
         (if g.sharedPool then Active(c.meters.groupCooldownUntil, g.id, now)
          else Active(c.meters.cooldownUntil, uid, now)), off)
  }

  function AppVerdicts(c: Core, apps: seq<AppRule>, now: nat, off: bool): seq<Verdict> {
    if apps == [] then []
    else
      var rest, a := AppVerdicts(c, apps[..|apps| - 1], now, off), apps[|apps| - 1];
      if Blockable(c.cfg, a.key)
      then rest + [Verdict(c.cfg.uidOf[a.key], a.key, AppDecision(c, a, c.cfg.uidOf[a.key], now, off))]
      else rest
  }

  function MemberVerdicts(c: Core, g: GroupRule, members: seq<string>, now: nat, off: bool): seq<Verdict> {
    if members == [] then []
    else
      var rest, m := MemberVerdicts(c, g, members[..|members| - 1], now, off), members[|members| - 1];
      if Blockable(c.cfg, m)
      then rest + [Verdict(c.cfg.uidOf[m], m, GroupDecision(c, g, c.cfg.uidOf[m], now, off))]
      else rest
  }

  function GroupVerdicts(c: Core, groups: seq<GroupRule>, now: nat, off: bool): seq<Verdict> {
    if groups == [] then []
    else
      var g := groups[|groups| - 1];
      GroupVerdicts(c, groups[..|groups| - 1], now, off) + MemberVerdicts(c, g, g.members, now, off)
  }

  function Verdicts(c: Core, now: nat, off: bool): seq<Verdict> {
    AppVerdicts(c, c.cfg.rules.apps, now, off) + GroupVerdicts(c, c.cfg.rules.groups, now, off)
  }

  /** Later verdicts overwrite earlier ones. */
  function WantOf(vs: seq<Verdict>): map<Uid, bool> {
    if vs == [] then map[]
    else
      var v := vs[|vs| - 1];
      WantOf(vs[..|vs| - 1])[v.uid := v.block]
  }

  /** Package names of the blocking verdicts of each uid, in order of appearance. */
  function NamesOf(vs: seq<Verdict>): map<Uid, seq<string>> {
    if vs == [] then map[]
    else
      var v, names := vs[|vs| - 1], NamesOf(vs[..|vs| - 1]);
      var pkg := PackageOf(v.key);
      if v.block && pkg.Some?
      then names[v.uid := (if v.uid in names then names[v.uid] else []) + [pkg.value]]
      else names
  }

  function SortNames(names: map<Uid, seq<string>>): map<Uid, seq<string>> {
    map u | u in names :: SortDedup(names[u], StringLess)
  }

  function BlockIndex(vs: seq<Verdict>): map<Uid, seq<string>> { SortNames(NamesOf(vs)) }

  function BlockSet(want: map<Uid, bool>): set<Uid> {
    set u | u in want && want[u]
  }

  function WantedBlocks(c: Core, now: nat, off: bool): set<Uid> {
    BlockSet(WantOf(Verdicts(c, now, off)))
  }

  /** The screen is only probed when some enabled rule needs it. */
  predicate SeenScreenOff(rules: RuleFile, s: Sample) {
    NeedsScreen(rules) && s.screenOff
  }

  // ---------- a tick, an extension ----------

  /** The bookkeeping of a tick, once the rules and the uid map are up to date. */
  function TickCore(c: Core, now: nat, s: Sample): Core {
    var c1 := DailyReset(c, now);
    var used := Accumulate(c1.cfg, c1.meters, Elapsed(c1.lastTick, now), s);
    c1.(lastTick := Some(now), meters := Maintain(c1.cfg, used, now))
  }

  /** The uids a tick leaves blocked when every update of the block map succeeds. */
  function TickBlocks(c: Core, now: nat, s: Sample): set<Uid> {
    WantedBlocks(TickCore(c, now, s), now, SeenScreenOff(c.cfg.rules, s))
  }

  datatype Grant =
    | Granted(minutes: nat)
    | ManagedByGroup(id: string)
    | LimitReached
    | UnknownKey

  function GroupOfMember(groups: seq<GroupRule>, key: string): Option<string> {
    if groups == [] then None
    else if key in groups[0].members then Some(groups[0].id)
    else GroupOfMember(groups[1..], key)
  }

  predicate HasGroup(groups: seq<GroupRule>, id: string) {
    exists g | g in groups :: g.id == id
  }

  /** Who an extension request is for: a uid, a group, or nobody with the reason. */
  datatype Slot = UidSlot(uid: Uid) | GroupSlot(id: string)

  function SlotOf(cfg: Config, key: string): Option<Slot> {
    if !HasApp(cfg.rules.apps, key) && GroupOfMember(cfg.rules.groups, key).Some? then None
    else if key in cfg.uidOf then Some(UidSlot(cfg.uidOf[key]))
    else if HasGroup(cfg.rules.groups, key) then Some(GroupSlot(key))
    else None
  }

  function GrantedTo(b: Budget, slot: Slot): nat {
    match slot
    case UidSlot(uid) => Get(b.extGranted, uid)
    case GroupSlot(id) => Get(b.groupExtGranted, id)
  }

  function UntilOf(b: Budget, slot: Slot): nat {
    match slot
    case UidSlot(uid) => Get(b.extUntil, uid)
    case GroupSlot(id) => Get(b.groupExtUntil, id)
  }

  function SetSlot(b: Budget, slot: Slot, until: nat, granted: nat): Budget {
    match slot
    case UidSlot(uid) => b.(extUntil := b.extUntil[uid := until], extGranted := b.extGranted[uid := granted])
    case GroupSlot(id) =>
      b.(groupExtUntil := b.groupExtUntil[id := until], groupExtGranted := b.groupExtGranted[id := granted])
  }

  /** Minutes are added up to the daily cap, after any time still running. */
  function AddExtension(c: Core, key: string, minutes: nat, now: nat): (Core, Grant) {
    var slot := SlotOf(c.cfg, key);
    if slot.None? then
      var group := GroupOfMember(c.cfg.rules.groups, key);
      (c, if !HasApp(c.cfg.rules.apps, key) && group.Some? then ManagedByGroup(group.value) else UnknownKey)
    else
      var used := GrantedTo(c.budget, slot.value);
      if used >= EXTENSION_CAP then (c, LimitReached)
      else
        var add := Min(minutes, EXTENSION_CAP - used);
        var until := Max(UntilOf(c.budget, slot.value), now) + add * 60;
        (c.(budget := SetSlot(c.budget, slot.value, until, used + add)), Granted(add))
  }

  /** Every deadline the scheduler must wake for. */
  ghost predicate IsDeadline(c: Core, t: nat) {
    || t in c.budget.extUntil.Values
    || t in c.budget.groupExtUntil.Values
    || t in c.meters.cooldownUntil.Values
    || t in c.meters.groupCooldownUntil.Values
  }

  /** The scheduler's inputs as the engine gathers them. */
  ghost predicate WakeInputsOf(c: Core, blocked: set<Uid>, now: nat, i: WakeInputs) {
    && i.rules == c.cfg.rules
    && i.anyBlocked == (blocked != {})
    && (forall t :: t in i.expiries <==> IsDeadline(c, t))
    && i.nowEpoch == now
    && i.nowMin == NowMinute(now, c.cfg.zone)
    && i.weekday == NowWeekday(now, c.cfg.zone)
    && i.secInMin == now % 60
  }
}
