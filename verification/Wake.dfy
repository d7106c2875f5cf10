/** The adaptive sleep of the daemon, and the proof that nothing changes while it sleeps. */
module Wake {
  import opened Rules
  import opened Calendar
  import opened Windows
  import opened Decision

  const ACTIVE_TICK_SECS := 15
  const SWEEP_TICK_SECS := 60
  const IDLE_TICK_SECS := 300

  datatype WakeInputs = WakeInputs(
    rules: RuleFile,
    anyBlocked: bool,
    expiries: seq<nat>,
    nowEpoch: nat,
    nowMin: nat,
    weekday: nat,
    secInMin: nat)

  predicate NeedsActive(sets: seq<RuleSet>) {
    exists s | s in sets :: s.duration.limitMinutes > 0 || s.lockBlock
  }

  function AllWindows(sets: seq<RuleSet>): (r: seq<TimeWindow>)
    ensures forall s, w | s in sets && w in s.timeWindows.windows :: w in r
  {
    if sets == [] then []
    else AllWindows(sets[..|sets| - 1]) + sets[|sets| - 1].timeWindows.windows
  }

  lemma OneMoreSet(sets: seq<RuleSet>, s: RuleSet)
    ensures AllWindows(sets + [s]) == AllWindows(sets) + s.timeWindows.windows
    ensures NeedsActive(sets + [s]) == (NeedsActive(sets) || s.duration.limitMinutes > 0 || s.lockBlock)
  {
    assert (sets + [s])[..|sets|] == sets;
    assert s in sets + [s];
    assert forall x | x in sets :: x in sets + [s];
  }

  function Edge(i: WakeInputs, w: TimeWindow): Option<nat>
    requires i.weekday >= 1
  {
    EdgeSecs(SpanOf(w), i.nowMin, i.weekday, i.secInMin)
  }

  function MidnightSecs(i: WakeInputs): nat
    requires i.nowMin < MINUTES_PER_DAY
  {
    var secs := (MINUTES_PER_DAY - i.nowMin) * 60 - i.secInMin;
    if secs < 1 then 1 else secs
  }

  ghost predicate ValidInputs(i: WakeInputs) {
    i.nowMin < MINUTES_PER_DAY && i.weekday >= 1
  }

  /** The reasons to wake up, each with its delay. */
  ghost predicate WakeReason(i: WakeInputs, secs: nat)
    requires ValidInputs(i)
  {
    || secs == IDLE_TICK_SECS
    || (i.anyBlocked && secs == SWEEP_TICK_SECS)
    || (NeedsActive(EnabledSets(i.rules)) && secs == ACTIVE_TICK_SECS)
    || (exists w | w in AllWindows(EnabledSets(i.rules)) :: Edge(i, w) == Some(secs))
    || (exists t | t in i.expiries :: t > i.nowEpoch && secs == t - i.nowEpoch)
    || secs == MidnightSecs(i)
  }

  ghost predicate NoLaterThanAny(i: WakeInputs, secs: nat)
    requires ValidInputs(i)
  {
    && secs <= IDLE_TICK_SECS
    && (i.anyBlocked ==> secs <= SWEEP_TICK_SECS)
    && (NeedsActive(EnabledSets(i.rules)) ==> secs <= ACTIVE_TICK_SECS)
    && (forall w | w in AllWindows(EnabledSets(i.rules)) :: Edge(i, w).Some? ==> secs <= Edge(i, w).value)
    && (forall t | t in i.expiries :: t > i.nowEpoch ==> i.nowEpoch + secs <= t)
    && secs <= MidnightSecs(i)
  }

  /** The sleep is the least delay of all reasons to wake up. */
  ghost predicate IsNextWake(i: WakeInputs, secs: nat)
    requires ValidInputs(i)
  {
    WakeReason(i, secs) && NoLaterThanAny(i, secs)
  }

  lemma NextWakeIsLeast(i: WakeInputs, secs: nat, other: nat)
    requires ValidInputs(i) && IsNextWake(i, secs) && WakeReason(i, other)
    ensures secs <= other
  {}

  function Min(a: nat, b: nat): nat { if a <= b then a else b }

  function Max(a: nat, b: nat): nat { if a <= b then b else a }

  ghost predicate EarliestEdge(i: WakeInputs, windows: seq<TimeWindow>, edge: Option<nat>)
    requires ValidInputs(i)
  {
    && (edge.Some? ==> edge.value >= 1 && exists w | w in windows :: Edge(i, w) == edge)
    && forall w | w in windows :: Edge(i, w).Some? ==> edge.Some? && edge.value <= Edge(i, w).value
  }

  lemma ExtendEarliest(i: WakeInputs, windows: seq<TimeWindow>, edge: Option<nat>, w: TimeWindow)
    requires ValidInputs(i) && EarliestEdge(i, windows, edge)
    ensures EarliestEdge(i, windows + [w],
      if Edge(i, w).None? then edge
      else Some(if edge.Some? then Min(edge.value, Edge(i, w).value) else Edge(i, w).value))
  {
    assert w in windows + [w];
    if v :| v in windows && Edge(i, v) == edge {
      assert v in windows + [w];
    }
  }

  ghost predicate EarliestExpiry(i: WakeInputs, expiries: seq<nat>, cap: nat, secs: nat) {
    && secs <= cap
    && (secs == cap || exists t | t in expiries :: t > i.nowEpoch && secs == t - i.nowEpoch)
    && forall t | t in expiries :: t > i.nowEpoch ==> secs <= t - i.nowEpoch
  }

  lemma ExtendExpiries(i: WakeInputs, expiries: seq<nat>, cap: nat, secs: nat, t: nat)
    requires EarliestExpiry(i, expiries, cap, secs)
    ensures EarliestExpiry(i, expiries + [t], cap, if t > i.nowEpoch then Min(secs, t - i.nowEpoch) else secs)
  {
    assert t in expiries + [t];
    if u :| u in expiries && u > i.nowEpoch && secs == u - i.nowEpoch {
      assert u in expiries + [t];
    }
  }

  /** The pass over the enabled rule sets: the cadence they need and the earliest window edge. */
  method ScanSets(i: WakeInputs, cadence: nat) returns (secs: nat, edge: Option<nat>)
    requires ValidInputs(i) && cadence >= ACTIVE_TICK_SECS
    ensures secs == if NeedsActive(EnabledSets(i.rules)) then ACTIVE_TICK_SECS else cadence
    ensures EarliestEdge(i, AllWindows(EnabledSets(i.rules)), edge)
  {
    var sets := EnabledSets(i.rules);
    secs, edge := cadence, None;
    ghost var windows, active := AllWindows([]), NeedsActive([]);
    for k := 0 to |sets|
      invariant windows == AllWindows(sets[..k]) && active == NeedsActive(sets[..k])
      invariant secs == if active then ACTIVE_TICK_SECS else cadence
      invariant EarliestEdge(i, windows, edge)
    {
      if sets[k].duration.limitMinutes > 0 {
        secs := Min(secs, ACTIVE_TICK_SECS);
      }
      if sets[k].lockBlock {
        secs := Min(secs, ACTIVE_TICK_SECS);
      }
      edge := ScanWindows(i, windows, sets[k].timeWindows.windows, edge);
      OneMoreSet(sets[..k], sets[k]);
      assert sets[..k + 1] == sets[..k] + [sets[k]];
      windows, active := AllWindows(sets[..k + 1]), NeedsActive(sets[..k + 1]);
    }
    assert sets[..|sets|] == sets;
  }

  method ScanWindows(i: WakeInputs, ghost before: seq<TimeWindow>, ws: seq<TimeWindow>, edge0: Option<nat>)
    returns (edge: Option<nat>)
    requires ValidInputs(i) && EarliestEdge(i, before, edge0)
    ensures EarliestEdge(i, before + ws, edge)
  {
    edge := edge0;
    assert before + ws[..0] == before;
    for j := 0 to |ws|
      invariant EarliestEdge(i, before + ws[..j], edge)
    {
      assert before + ws[..j + 1] == (before + ws[..j]) + [ws[j]];
      ExtendEarliest(i, before + ws[..j], edge, ws[j]);
      var s := WindowEdgeSecs(ws[j], i.nowMin, i.weekday, i.secInMin);
      if s.Some? {
        edge := Some(if edge.Some? then Min(edge.value, s.value) else s.value);
      }
    }
    assert ws[..|ws|] == ws;
  }

  method ScanExpiries(i: WakeInputs, cap: nat) returns (secs: nat)
    requires cap >= 1
    ensures secs >= 1 && EarliestExpiry(i, i.expiries, cap, secs)
  {
    secs := cap;
    for k := 0 to |i.expiries|
      invariant secs >= 1 && EarliestExpiry(i, i.expiries[..k], cap, secs)
    {
      var t := i.expiries[k];
      assert i.expiries[..k + 1] == i.expiries[..k] + [t];
      ExtendExpiries(i, i.expiries[..k], cap, secs, t);
      if t > i.nowEpoch {
        secs := Min(secs, t - i.nowEpoch);
      }
    }
    assert i.expiries[..|i.expiries|] == i.expiries;
  }

  // ---------- the sleep, in rules and times ----------

  /** The inputs are those of one instant in one zone. */
  ghost predicate InputsAt(i: WakeInputs, zone: Option<int>) {
    && WholeHours(zone)
    && i.nowMin == NowMinute(i.nowEpoch, zone)
    && i.weekday == NowWeekday(i.nowEpoch, zone)
    && i.secInMin == i.nowEpoch % 60
  }

  /** Some enabled rule has a limit or locks with the screen off. */
  predicate NeedsSampling(rules: RuleFile) {
    || (exists a | a in rules.apps :: a.enabled && (a.rules.duration.limitMinutes > 0 || a.rules.lockBlock))
    || (exists g | g in rules.groups :: g.enabled && (g.rules.duration.limitMinutes > 0 || g.rules.lockBlock))
  }

  /** The longest sleep: 15 seconds while rules need sampling, a minute while something is blocked, five
      minutes otherwise. */
  function Cadence(rules: RuleFile, anyBlocked: bool): nat {
    if NeedsSampling(rules) then 15 else if anyBlocked then 60 else 300
  }

  /** Membership of the local second in some window of an enabled rule set differs from the second before. */
  ghost predicate SomeWindowFlips(rules: RuleFile, local: int) {
    exists rs, w | EnabledSet(rules, rs) && w in rs.timeWindows.windows ::
      InsideAt(SpanOf(w), local) != InsideAt(SpanOf(w), local - 1)
  }

  /** What the engine must not miss happens at this second: a new date, a deadline, or a window's edge. */
  ghost predicate Due(i: WakeInputs, zone: Option<int>, at: nat) {
    || (at > 0 && Today(at, zone) != Today(at - 1, zone))
    || at in i.expiries
    || SomeWindowFlips(i.rules, LocalSecs(at, zone))
  }

  /** The sleep ends at the cadence, or before it at the first second at which something is due. */
  ghost predicate ExactSleep(i: WakeInputs, zone: Option<int>, secs: nat) {
    && 1 <= secs <= Cadence(i.rules, i.anyBlocked)
    && (forall at: nat | i.nowEpoch < at < i.nowEpoch + secs :: !Due(i, zone, at))
    && (secs == Cadence(i.rules, i.anyBlocked) || Due(i, zone, i.nowEpoch + secs))
  }

  /** Midnight is where the date goes on by one, and before it the date is today's. */
  lemma MidnightIsNewDate(i: WakeInputs, zone: Option<int>)
    requires InputsAt(i, zone)
    ensures MidnightSecs(i) >= 1
    ensures Today(i.nowEpoch + MidnightSecs(i), zone) == Today(i.nowEpoch, zone) + 1
    ensures forall at: nat | i.nowEpoch <= at < i.nowEpoch + MidnightSecs(i) ::
      Today(at, zone) == Today(i.nowEpoch, zone)
  {
    SecondOfMinute(i.nowEpoch, zone);
    DayFromMinutes(LocalSecs(i.nowEpoch, zone));
  }

  lemma {:induction false} WindowsOfSets(sets: seq<RuleSet>, w: TimeWindow)
    ensures w in AllWindows(sets) <==> exists s | s in sets :: w in s.timeWindows.windows
  {
    if sets == [] {
    } else {
      var n := |sets| - 1;
      WindowsOfSets(sets[..n], w);
      assert forall s :: s in sets <==> s in sets[..n] || s == sets[n];
    }
  }

  /** The scan's cadence and windows are those of the enabled rules. */
  lemma ScanMeans(rules: RuleFile)
    ensures NeedsActive(EnabledSets(rules)) <==> NeedsSampling(rules)
    ensures forall w :: w in AllWindows(EnabledSets(rules)) <==>
      exists rs :: EnabledSet(rules, rs) && w in rs.timeWindows.windows
  {
    hide EnabledSets, AllWindows;
    forall s ensures s in EnabledSets(rules) <==> EnabledSet(rules, s) { EnabledSetsIff(rules, s); }
    forall w ensures w in AllWindows(EnabledSets(rules)) <==>
      exists rs :: EnabledSet(rules, rs) && w in rs.timeWindows.windows
    {
      WindowsOfSets(EnabledSets(rules), w);
    }
  }

  lemma EdgeIsEdgeAt(i: WakeInputs, zone: Option<int>, w: TimeWindow)
    requires InputsAt(i, zone) && ValidInputs(i)
    ensures Edge(i, w) == EdgeAt(SpanOf(w), LocalSecs(i.nowEpoch, zone))
  {
    hide EdgeSecs, ParseHhmm;
    SecondOfMinute(i.nowEpoch, zone);
  }

  lemma NothingDueBefore(i: WakeInputs, zone: Option<int>, secs: nat, at: nat)
    requires InputsAt(i, zone) && ValidInputs(i) && NoLaterThanAny(i, secs) && i.nowEpoch < at < i.nowEpoch + secs
    ensures !Due(i, zone, at)
  {
    hide InsideAt, Today, EdgeSecs, EnabledSet, EnabledSets, AllWindows;
    hide EdgeAt, MidnightSecs, NeedsActive, NeedsSampling;
    MidnightIsNewDate(i, zone);
    ScanMeans(i.rules);
    var local, t := LocalSecs(i.nowEpoch, zone), at - i.nowEpoch;
    assert LocalSecs(at, zone) == local + t;
    forall w | w in AllWindows(EnabledSets(i.rules))
      ensures InsideAt(SpanOf(w), local + t) == InsideAt(SpanOf(w), local + t - 1)
    {
      EdgeIsEdgeAt(i, zone, w);
      SameUntilEdge(SpanOf(w), local, t);
      SameUntilEdge(SpanOf(w), local, t - 1);
    }
  }

  lemma DueAtEdge(i: WakeInputs, zone: Option<int>, w: TimeWindow)
    requires InputsAt(i, zone) && ValidInputs(i) && Edge(i, w).Some? && w in AllWindows(EnabledSets(i.rules))
    ensures Due(i, zone, i.nowEpoch + Edge(i, w).value)
  {
    hide InsideAt, Today, EdgeSecs, EnabledSet, EnabledSets, AllWindows;
    hide EdgeAt, ParseHhmm, NeedsActive, NeedsSampling;
    var local, secs := LocalSecs(i.nowEpoch, zone), Edge(i, w).value;
    EdgeIsEdgeAt(i, zone, w);
    EdgeIsFirstFlip(SpanOf(w), local);
    ScanMeans(i.rules);
    assert InsideAt(SpanOf(w), local + secs - 1) == InsideAt(SpanOf(w), local);
    assert LocalSecs(i.nowEpoch + secs, zone) == local + secs;
  }

  lemma MidnightIsDue(i: WakeInputs, zone: Option<int>)
    requires InputsAt(i, zone)
    ensures Due(i, zone, i.nowEpoch + MidnightSecs(i))
  {
    hide Today, MidnightSecs, SomeWindowFlips;
    MidnightIsNewDate(i, zone);
  }

  lemma CadenceIs(i: WakeInputs, secs: nat)
    requires ValidInputs(i) && IsNextWake(i, secs)
    ensures secs <= Cadence(i.rules, i.anyBlocked)
    ensures secs == IDLE_TICK_SECS ==> secs == Cadence(i.rules, i.anyBlocked)
    ensures i.anyBlocked && secs == SWEEP_TICK_SECS ==> secs == Cadence(i.rules, i.anyBlocked)
    ensures NeedsActive(EnabledSets(i.rules)) && secs == ACTIVE_TICK_SECS ==> secs == Cadence(i.rules, i.anyBlocked)
  {
    hide EnabledSets, NeedsActive, NeedsSampling, AllWindows, Edge, MidnightSecs;
    ScanMeans(i.rules);
  }

  /** The least of the scheduler's delays is that sleep. */
  lemma SleepIsExact(i: WakeInputs, zone: Option<int>, secs: nat)
    requires InputsAt(i, zone) && ValidInputs(i) && IsNextWake(i, secs) && secs >= 1
    ensures ExactSleep(i, zone, secs)
  {
    hide Edge, EnabledSets, AllWindows, Due, MidnightSecs, NeedsActive, Cadence, InputsAt;
    CadenceIs(i, secs);
    forall at: nat | i.nowEpoch < at < i.nowEpoch + secs ensures !Due(i, zone, at) {
      NothingDueBefore(i, zone, secs, at);
    }
    if w :| w in AllWindows(EnabledSets(i.rules)) && Edge(i, w) == Some(secs) {
      DueAtEdge(i, zone, w);
    }
    if t :| t in i.expiries && t > i.nowEpoch && secs == t - i.nowEpoch {
      ExpiryIsDue(i, zone, t);
    }
    MidnightIsDue(i, zone);
  }

  lemma ExpiryIsDue(i: WakeInputs, zone: Option<int>, t: nat)
    requires t in i.expiries
    ensures Due(i, zone, t)
  {}

  lemma SleepIsExactAnywhere(i: WakeInputs, secs: nat)
    requires ValidInputs(i) && IsNextWake(i, secs) && secs >= 1
    ensures forall zone | InputsAt(i, zone) :: ExactSleep(i, zone, secs)
  {
    hide InputsAt, ValidInputs, IsNextWake, ExactSleep;
    forall zone | InputsAt(i, zone) ensures ExactSleep(i, zone, secs) {
      SleepIsExact(i, zone, secs);
    }
  }

  method NextWakeSecs(i: WakeInputs) returns (r: nat)
    requires ValidInputs(i)
    ensures 1 <= r <= IDLE_TICK_SECS
    ensures IsNextWake(i, r)
    ensures forall zone | InputsAt(i, zone) :: ExactSleep(i, zone, r)
  {
    hide InputsAt, ExactSleep, EnabledSets, AllWindows, NeedsActive, EdgeSecs;
    var secs := IDLE_TICK_SECS;
    if i.anyBlocked {
      secs := Min(secs, SWEEP_TICK_SECS);
    }
    var edge;
    secs, edge := ScanSets(i, secs);
    if edge.Some? {
      secs := Min(secs, edge.value);
    }
    secs := ScanExpiries(i, secs);
    r := Min(secs, MidnightSecs(i));
    r := Max(r, 1);
    SleepIsExactAnywhere(i, r);
  }

  // ---------- nothing changes while asleep ----------

  lemma SameDayWhileAsleep(i: WakeInputs, zone: Option<int>, s: nat)
    requires InputsAt(i, zone) && s < MidnightSecs(i)
    ensures Today(i.nowEpoch + s, zone) == Today(i.nowEpoch, zone)
  {
    SecondOfMinute(i.nowEpoch, zone);
    DayFromMinutes(LocalSecs(i.nowEpoch, zone));
  }

  lemma SameWindowWhileAsleep(i: WakeInputs, zone: Option<int>, s: nat, w: TimeWindow)
    requires InputsAt(i, zone) && s < IDLE_TICK_SECS
    requires Edge(i, w).Some? ==> s < Edge(i, w).value
    ensures InWindow(w, NowMinute(i.nowEpoch + s, zone), NowWeekday(i.nowEpoch + s, zone))
         == InWindow(w, i.nowMin, i.weekday)
  {
    SecondOfMinute(i.nowEpoch, zone);
    SameUntilEdge(SpanOf(w), LocalSecs(i.nowEpoch, zone), s);
  }

  /** Until the next wake-up the date stays the same, no deadline passes, and every enabled rule
      set keeps its decision for the same usage and screen samples. */
  lemma NoMissedChange(i: WakeInputs, zone: Option<int>, r: nat, s: nat)
    requires InputsAt(i, zone) && IsNextWake(i, r) && s < r
    ensures Today(i.nowEpoch + s, zone) == Today(i.nowEpoch, zone)
    ensures forall t | t in i.expiries :: i.nowEpoch + s < t <==> i.nowEpoch < t
    ensures forall rules, ext, over, cool, off | rules in EnabledSets(i.rules) ::
      Eval(rules, NowMinute(i.nowEpoch + s, zone), NowWeekday(i.nowEpoch + s, zone), ext, over, cool, off)
      == Eval(rules, i.nowMin, i.weekday, ext, over, cool, off)
  {
    SameDayWhileAsleep(i, zone, s);
    var m, d := NowMinute(i.nowEpoch + s, zone), NowWeekday(i.nowEpoch + s, zone);
    forall rules | rules in EnabledSets(i.rules)
      ensures InAny(rules.timeWindows.windows, m, d) == InAny(rules.timeWindows.windows, i.nowMin, i.weekday)
    {
      forall w | w in rules.timeWindows.windows
        ensures InWindow(w, m, d) == InWindow(w, i.nowMin, i.weekday)
      {
        SameWindowWhileAsleep(i, zone, s, w);
      }
    }
  }
}
