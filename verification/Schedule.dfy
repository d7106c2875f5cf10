/** The daemon's main loop: the adaptive schedule has the same effect as ticking every second. */
module Schedule {
  import opened Rules
  import opened Calendar
  import opened Decision
  import opened Wake
  import opened Foreground
  import opened EngineState

  /** All values of a hash map, in no particular order. */
  method ValuesOf<K>(m: map<K, nat>) returns (values: seq<nat>)
    ensures forall t :: t in values <==> t in m.Values
  {
    values := [];
    var todo := m.Keys;
    while todo != {}
      invariant todo <= m.Keys
      invariant forall t | t in values :: t in m.Values
      invariant forall k | k in m.Keys - todo :: m[k] in values
    {
      var k := Pick(todo);
      todo := todo - {k};
      values := values + [m[k]];
    }
  }

  predicate HasValue<K(==)>(m: map<K, nat>, t: nat) {
    exists k | k in m :: m[k] == t
  }

  /** What the engine must not miss happens at this second: a new local date, the end of an extension or a
      cooldown, or an edge of an enabled rule's window. */
  ghost predicate DueAt(c: Core, at: nat) {
    || (at > 0 && Today(at, c.cfg.zone) != Today(at - 1, c.cfg.zone))
    || HasValue(c.budget.extUntil, at) || HasValue(c.budget.groupExtUntil, at)
    || HasValue(c.meters.cooldownUntil, at) || HasValue(c.meters.groupCooldownUntil, at)
    || SomeWindowFlips(c.cfg.rules, LocalSecs(at, c.cfg.zone))
  }

  /** The sleep lasts 15, 60 or 300 seconds, as the rules and the block list ask for, or ends before that at
      the first second at which something is due. */
  ghost predicate SleepsUntilDue(c: Core, blocked: set<Uid>, now: nat, secs: nat) {
    && 1 <= secs <= Cadence(c.cfg.rules, blocked != {})
    && (forall at: nat | now < at < now + secs :: !DueAt(c, at))
    && (secs == Cadence(c.cfg.rules, blocked != {}) || DueAt(c, now + secs))
  }

  lemma DueIsDueAt(c: Core, blocked: set<Uid>, now: nat, i: WakeInputs, at: nat)
    requires WakeInputsOf(c, blocked, now, i)
    ensures Due(i, c.cfg.zone, at) <==> DueAt(c, at)
  {
    hide Today, SomeWindowFlips, NowMinute, NowWeekday, LocalSecs;
    assert IsDeadline(c, at) <==> at in i.expiries;
  }

  lemma SleepIsUntilDue(c: Core, blocked: set<Uid>, now: nat, i: WakeInputs, secs: nat)
    requires WholeHours(c.cfg.zone) && WakeInputsOf(c, blocked, now, i)
    requires forall zone | InputsAt(i, zone) :: ExactSleep(i, zone, secs)
    ensures SleepsUntilDue(c, blocked, now, secs)
  {
    hide Today, SomeWindowFlips, NowMinute, NowWeekday, Cadence, Due, DueAt, IsDeadline;
    assert InputsAt(i, c.cfg.zone);
    forall at: nat ensures Due(i, c.cfg.zone, at) <==> DueAt(c, at) {
      DueIsDueAt(c, blocked, now, i, at);
    }
  }

  /** Gathers the scheduler's inputs and asks it how long to sleep. */
  method TickInterval(c: Core, blocked: set<Uid>, now: nat) returns (secs: nat, ghost i: WakeInputs)
    ensures 1 <= secs <= IDLE_TICK_SECS
    ensures ValidInputs(i) && WakeInputsOf(c, blocked, now, i) && IsNextWake(i, secs)
    ensures WholeHours(c.cfg.zone) ==> SleepsUntilDue(c, blocked, now, secs)
  {
    hide InputsAt, ExactSleep, SleepsUntilDue, IsNextWake;
    var a := ValuesOf(c.budget.extUntil);
    var b := ValuesOf(c.budget.groupExtUntil);
    var d := ValuesOf(c.meters.cooldownUntil);
    var e := ValuesOf(c.meters.groupCooldownUntil);
    var inputs := WakeInputs(c.cfg.rules, blocked != {}, a + b + d + e, now,
      NowMinute(now, c.cfg.zone), NowWeekday(now, c.cfg.zone), now % 60);
    i := inputs;
    secs := NextWakeSecs(inputs);
    if WholeHours(c.cfg.zone) {
      SleepIsUntilDue(c, blocked, now, i, secs);
    }
  }

  // ---------- the wanted state does not change while asleep ----------

  /** Between now and an earlier instant nothing that decisions read has changed. */
  ghost predicate Unchanged(c: Core, from: nat, now: nat) {
    && Today(now, c.cfg.zone) == Today(from, c.cfg.zone)
    && (forall t | IsDeadline(c, t) :: now < t <==> from < t)
    && (forall rules, ext, over, cool, off | rules in EnabledSets(c.cfg.rules) ::
          Eval(rules, NowMinute(now, c.cfg.zone), NowWeekday(now, c.cfg.zone), ext, over, cool, off)
          == Eval(rules, NowMinute(from, c.cfg.zone), NowWeekday(from, c.cfg.zone), ext, over, cool, off))
  }

  lemma UnchangedUntilWake(c: Core, blocked: set<Uid>, from: nat, i: WakeInputs, secs: nat, now: nat)
    requires WholeHours(c.cfg.zone) && ValidInputs(i)
    requires WakeInputsOf(c, blocked, from, i) && IsNextWake(i, secs) && from <= now < from + secs
    ensures Unchanged(c, from, now)
  {
    hide Eval, NowMinute, NowWeekday, Today, IsNextWake, IsDeadline;
    NoMissedChange(i, c.cfg.zone, secs, now - from);
  }

  lemma SameActive<K>(m: map<K, nat>, from: nat, now: nat)
    requires forall t | t in m.Values :: now < t <==> from < t
    ensures forall k :: Active(m, k, now) == Active(m, k, from)
  {
    forall k | k in m ensures now < m[k] <==> from < m[k] {
      assert m[k] in m.Values;
    }
  }

  lemma SameDecisions(c: Core, from: nat, now: nat, off: bool)
    requires Unchanged(c, from, now)
    ensures forall a, u | a in c.cfg.rules.apps :: AppDecision(c, a, u, now, off) == AppDecision(c, a, u, from, off)
    ensures forall g, u | g in c.cfg.rules.groups ::
      GroupDecision(c, g, u, now, off) == GroupDecision(c, g, u, from, off)
  {
    hide Eval, OverDuration, NowMinute, NowWeekday, Today;
    assert forall t | t in c.budget.extUntil.Values :: IsDeadline(c, t);
    SameActive(c.budget.extUntil, from, now);
    assert forall t | t in c.budget.groupExtUntil.Values :: IsDeadline(c, t);
    SameActive(c.budget.groupExtUntil, from, now);
    assert forall t | t in c.meters.cooldownUntil.Values :: IsDeadline(c, t);
    SameActive(c.meters.cooldownUntil, from, now);
    assert forall t | t in c.meters.groupCooldownUntil.Values :: IsDeadline(c, t);
    SameActive(c.meters.groupCooldownUntil, from, now);
    forall a, u | a in c.cfg.rules.apps
      ensures AppDecision(c, a, u, now, off) == AppDecision(c, a, u, from, off)
    {
      assert a.enabled ==> a.rules in EnabledSets(c.cfg.rules);
    }
    forall g, u | g in c.cfg.rules.groups
      ensures GroupDecision(c, g, u, now, off) == GroupDecision(c, g, u, from, off)
    {
      assert g.enabled ==> g.rules in EnabledSets(c.cfg.rules);
    }
  }

  lemma {:induction false} SameAppVerdicts(c: Core, apps: seq<AppRule>, from: nat, now: nat, off: bool)
    requires forall a, u | a in apps :: AppDecision(c, a, u, now, off) == AppDecision(c, a, u, from, off)
    ensures AppVerdicts(c, apps, now, off) == AppVerdicts(c, apps, from, off)
  {
    hide AppDecision;
    if apps == [] {
    } else {
      assert apps[|apps| - 1] in apps;
      SameAppVerdicts(c, apps[..|apps| - 1], from, now, off);
    }
  }

  lemma {:induction false} SameMemberVerdicts(c: Core, g: GroupRule, members: seq<string>,
                                              from: nat, now: nat, off: bool)
    requires forall u :: GroupDecision(c, g, u, now, off) == GroupDecision(c, g, u, from, off)
    ensures MemberVerdicts(c, g, members, now, off) == MemberVerdicts(c, g, members, from, off)
  {
    hide GroupDecision;
    if members == [] {
    } else {
      SameMemberVerdicts(c, g, members[..|members| - 1], from, now, off);
    }
  }

  lemma {:induction false} SameGroupVerdicts(c: Core, groups: seq<GroupRule>, from: nat, now: nat, off: bool)
    requires forall g, u | g in groups :: GroupDecision(c, g, u, now, off) == GroupDecision(c, g, u, from, off)
    ensures GroupVerdicts(c, groups, now, off) == GroupVerdicts(c, groups, from, off)
  {
    hide GroupDecision;
    if groups == [] {
    } else {
      var g := groups[|groups| - 1];
      assert g in groups;
      SameGroupVerdicts(c, groups[..|groups| - 1], from, now, off);
      SameMemberVerdicts(c, g, g.members, from, now, off);
    }
  }

  /** At every second before the next wake-up the whole wanted state is what it was at the last tick. */
  lemma SameWantUntilWake(c: Core, blocked: set<Uid>, from: nat, i: WakeInputs, secs: nat, now: nat, off: bool)
    requires WholeHours(c.cfg.zone) && ValidInputs(i)
    requires WakeInputsOf(c, blocked, from, i) && IsNextWake(i, secs) && from <= now < from + secs
    ensures Today(now, c.cfg.zone) == Today(from, c.cfg.zone)
    ensures Verdicts(c, now, off) == Verdicts(c, from, off)
    ensures WantedBlocks(c, now, off) == WantedBlocks(c, from, off)
  {
    hide AppDecision, GroupDecision;
    UnchangedUntilWake(c, blocked, from, i, secs, now);
    SameDecisions(c, from, now, off);
    SameAppVerdicts(c, c.cfg.rules.apps, from, now, off);
    SameGroupVerdicts(c, c.cfg.rules.groups, from, now, off);
  }

  // ---------- rules that depend on time only ----------

  /** No enabled rule needs sampling: no duration limit and no lock block. */
  ghost predicate TimeOnly(rules: RuleFile) {
    !NeedsUsage(rules) && !NeedsScreen(rules)
  }

  lemma {:induction false} NoAppJobs(uidOf: map<string, Uid>, apps: seq<AppRule>)
    requires forall a | a in apps && a.enabled :: a.rules.duration.limitMinutes == 0
    ensures AppJobs(uidOf, apps) == []
  {
    if apps == [] {
    } else {
      assert apps[|apps| - 1] in apps;
      NoAppJobs(uidOf, apps[..|apps| - 1]);
    }
  }

  lemma {:induction false} NoGroupJobs(uidOf: map<string, Uid>, groups: seq<GroupRule>)
    requires forall g | g in groups && g.enabled :: g.rules.duration.limitMinutes == 0
    ensures GroupMemberJobs(uidOf, groups) == [] && PoolJobs(groups) == []
  {
    if groups == [] {
    } else {
      assert groups[|groups| - 1] in groups;
      NoGroupJobs(uidOf, groups[..|groups| - 1]);
    }
  }

  /** Under such rules a tick only resets the day and records its time. */
  lemma TimeOnlyTick(c: Core, now: nat, s: Sample)
    requires TimeOnly(c.cfg.rules)
    ensures TickCore(c, now, s) == DailyReset(c, now).(lastTick := Some(now))
    ensures TickBlocks(c, now, s) == WantedBlocks(TickCore(c, now, s), now, false)
  {
    hide WantedBlocks;
    var rules := c.cfg.rules;
    forall a | a in rules.apps && a.enabled ensures a.rules.duration.limitMinutes == 0 {
      assert a.rules in EnabledSets(rules);
    }
    forall g | g in rules.groups && g.enabled ensures g.rules.duration.limitMinutes == 0 {
      assert g.rules in EnabledSets(rules);
    }
    NoAppJobs(c.cfg.uidOf, rules.apps);
    NoGroupJobs(c.cfg.uidOf, rules.groups);
  }

  // ---------- the reference: tick at every opportunity ----------

  datatype Request = Request(key: string, minutes: nat)

  function Requested(c: Core, r: Option<Request>, now: nat): Core {
    if r.Some? then AddExtension(c, r.value.key, r.value.minutes, now).0 else c
  }

  predicate IsGranted(c: Core, r: Option<Request>, now: nat) {
    r.Some? && AddExtension(c, r.value.key, r.value.minutes, now).1.Granted?
  }

  function ReferenceStep(c: Core, r: Option<Request>, now: nat, s: Sample): Core {
    TickCore(Requested(c, r, now), now, s)
  }

  /** The requests of one second, each followed by a tick. */
  function ReferenceRequests(c: Core, rs: seq<Request>, now: nat, s: Sample): Core {
    if rs == [] then c
    else ReferenceStep(ReferenceRequests(c, rs[..|rs| - 1], now, s), Some(rs[|rs| - 1]), now, s)
  }

  /** A whole second: its requests, then one more tick. */
  function ReferenceSecond(c: Core, rs: seq<Request>, now: nat, s: Sample): Core {
    ReferenceStep(ReferenceRequests(c, rs, now, s), None, now, s)
  }

  function ReferenceRun(c: Core, from: nat, requests: seq<seq<Request>>, samples: seq<Sample>): Core
    requires |samples| == |requests|
  {
    if requests == [] then c
    else
      var n := |requests| - 1;
      ReferenceSecond(ReferenceRun(c, from, requests[..n], samples[..n]), requests[n], from + n, samples[n])
  }

  /** The blocked set at the end of every second when ticking every second. */
  function ReferenceTrace(c: Core, from: nat, requests: seq<seq<Request>>, samples: seq<Sample>): seq<set<Uid>>
    requires |samples| == |requests|
  {
    if requests == [] then []
    else
      var n := |requests| - 1;
      ReferenceTrace(c, from, requests[..n], samples[..n])
      + [WantedBlocks(ReferenceRun(c, from, requests, samples), from + n, SeenScreenOff(c.cfg.rules, samples[n]))]
  }

  // ---------- the adaptive loop ----------

  /** `settled`: the last tick succeeded, so its block map updates are all in place. */
  datatype Loop = Loop(core: Core, blocked: set<Uid>, nextTick: nat, settled: bool)

  /** The state apart from the time of the last tick. */
  function Erase(c: Core): Core { c.(lastTick := None) }

  lemma TicksErase(c: Core, e: Core, now: nat, s: Sample)
    requires TimeOnly(c.cfg.rules) && Erase(c) == Erase(e)
    ensures TickCore(c, now, s) == TickCore(e, now, s)
  {
    TimeOnlyTick(c, now, s);
    TimeOnlyTick(e, now, s);
    hide TickCore;
  }

  lemma RequestsErase(c: Core, e: Core, r: Option<Request>, now: nat)
    requires Erase(c) == Erase(e)
    ensures Erase(Requested(c, r, now)) == Erase(Requested(e, r, now))
    ensures Requested(c, r, now).cfg == c.cfg
    ensures !IsGranted(c, r, now) ==> Requested(c, r, now) == c
  {
    hide SlotOf, GroupOfMember, HasApp;
  }

  /** The loop fell asleep at an earlier tick, which left the wanted set blocked if it succeeded. */
  ghost predicate AsleepSince(l: Loop, from: nat, i: WakeInputs) {
    && from < l.nextTick
    && ValidInputs(i) && WakeInputsOf(l.core, l.blocked, from, i) && IsNextWake(i, l.nextTick - from)
    && l.core.lastDay == Some(Today(from, l.core.cfg.zone))
    && (l.settled ==> l.blocked == WantedBlocks(l.core, from, false))
  }

  ghost predicate Asleep(l: Loop, now: nat) {
    now < l.nextTick ==> exists from: nat, i :: from <= now && AsleepSince(l, from, i)
  }

  /** While asleep, the tick that the reference makes changes nothing. */
  lemma SleepingTickIsIdle(l: Loop, now: nat, s: Sample)
    requires TimeOnly(l.core.cfg.rules) && WholeHours(l.core.cfg.zone)
    requires now < l.nextTick && Asleep(l, now)
    ensures Erase(TickCore(l.core, now, s)) == Erase(l.core)
    ensures l.settled ==> l.blocked == WantedBlocks(l.core, now, false)
  {
    hide WantedBlocks, TickCore, WakeInputsOf, IsNextWake;
    var from: nat, i :| from <= now && AsleepSince(l, from, i);
    SameWantUntilWake(l.core, l.blocked, from, i, l.nextTick - from, now, false);
    TimeOnlyTick(l.core, now, s);
  }

  lemma WantErases(c: Core, e: Core, now: nat, off: bool)
    requires Erase(c) == Erase(e)
    ensures WantedBlocks(c, now, off) == WantedBlocks(e, now, off)
  {
    SameVerdictsErased(c, e, now, off);
  }

  lemma StepsErase(c: Core, e: Core, r: Option<Request>, now: nat, s: Sample)
    requires TimeOnly(c.cfg.rules) && Erase(c) == Erase(e)
    ensures ReferenceStep(c, r, now, s) == ReferenceStep(e, r, now, s)
  {
    hide TickCore, Requested;
    RequestsErase(c, e, r, now);
    TicksErase(Requested(c, r, now), Requested(e, r, now), now, s);
  }

  lemma {:induction false} SameAppVerdictsErased(c: Core, e: Core, apps: seq<AppRule>, now: nat, off: bool)
    requires Erase(c) == Erase(e)
    ensures AppVerdicts(c, apps, now, off) == AppVerdicts(e, apps, now, off)
  {
    if apps == [] {
    } else {
      SameAppVerdictsErased(c, e, apps[..|apps| - 1], now, off);
    }
  }

  lemma {:induction false} SameMemberVerdictsErased(c: Core, e: Core, g: GroupRule, members: seq<string>,
                                                    now: nat, off: bool)
    requires Erase(c) == Erase(e)
    ensures MemberVerdicts(c, g, members, now, off) == MemberVerdicts(e, g, members, now, off)
  {
    if members == [] {
    } else {
      SameMemberVerdictsErased(c, e, g, members[..|members| - 1], now, off);
    }
  }

  lemma {:induction false} SameGroupVerdictsErased(c: Core, e: Core, groups: seq<GroupRule>, now: nat, off: bool)
    requires Erase(c) == Erase(e)
    ensures GroupVerdicts(c, groups, now, off) == GroupVerdicts(e, groups, now, off)
  {
    if groups == [] {
    } else {
      SameGroupVerdictsErased(c, e, groups[..|groups| - 1], now, off);
      SameMemberVerdictsErased(c, e, groups[|groups| - 1], groups[|groups| - 1].members, now, off);
    }
  }

  lemma SameVerdictsErased(c: Core, e: Core, now: nat, off: bool)
    requires Erase(c) == Erase(e)
    ensures Verdicts(c, now, off) == Verdicts(e, now, off)
  {
    SameAppVerdictsErased(c, e, c.cfg.rules.apps, now, off);
    SameGroupVerdictsErased(c, e, c.cfg.rules.groups, now, off);
  }
}
