/** Usage accounting: the counters are exact sums of tick intervals. */
module Usage {
  import opened Rules
  import opened Wake
  import opened Foreground
  import opened EngineState
  import opened Cooldowns

  /** Some enabled rule has a limit. */
  predicate SomeLimit(rules: RuleFile) {
    || (exists a | a in rules.apps :: a.enabled && a.rules.duration.limitMinutes > 0)
    || (exists g | g in rules.groups :: g.enabled && g.rules.duration.limitMinutes > 0)
  }

  /** While some rule has a limit, the schedule never sleeps as long as the accounting cap. */
  lemma ScheduleStaysBelowCap(i: WakeInputs, secs: nat)
    requires ValidInputs(i) && IsNextWake(i, secs) && SomeLimit(i.rules)
    ensures secs <= 15 < MAX_TICK_SECS
  {
    CadenceIs(i, secs);
  }

  /** Ticks follow each other, and the state's last tick, by at most the accounting cap. */
  ghost predicate Paced(c: Core, ticks: seq<Tick>) {
    && c.lastTick.Some?
    && forall k | 0 <= k < |ticks| :: PrevTime(c, ticks[..k]) <= ticks[k].now <= PrevTime(c, ticks[..k]) + MAX_TICK_SECS
  }

  function PrevTime(c: Core, ticks: seq<Tick>): nat
    requires c.lastTick.Some?
  {
    if ticks == [] then c.lastTick.value else ticks[|ticks| - 1].now
  }

  /** The summed lengths of the tick intervals at whose end the uid was running. */
  function LiveTime(c: Core, u: Uid, ticks: seq<Tick>): int
    requires c.lastTick.Some?
  {
    if ticks == [] then 0
    else
      var n := |ticks| - 1;
      LiveTime(c, u, ticks[..n])
      + (if IsRunning(c.cfg, u, ticks[n].sample) then ticks[n].now - PrevTime(c, ticks[..n]) else 0)
  }

  /** The summed lengths of the tick intervals at whose end the uid was in the foreground. */
  function ForegroundTime(c: Core, u: Uid, ticks: seq<Tick>): int
    requires c.lastTick.Some?
  {
    if ticks == [] then 0
    else
      var n := |ticks| - 1;
      ForegroundTime(c, u, ticks[..n])
      + (if IsForeground(c.cfg, u, ticks[n].sample) then ticks[n].now - PrevTime(c, ticks[..n]) else 0)
  }

  /** A cooldown that concerns the uid, its own or that of a pool it is in, has run out. */
  ghost predicate Expired(cfg: Config, m: Meters, u: Uid, now: nat) {
    || (Mentions(UidJobs(cfg), u) && RunOut(m.cooldownUntil, u, now))
    || (exists g | g in PoolJobs(cfg.rules.groups) ::
          Resolves(cfg.uidOf, g.members, u) && RunOut(m.groupCooldownUntil, g.id, now))
  }

  /** A pass zeroes a uid only if its cooldown had run out before: one started now runs beyond now. */
  lemma {:induction false} UidJobsKeepUsage(m: Meters, jobs: seq<UidJob>, u: Uid, now: nat)
    requires AllCool(jobs) && !(Mentions(jobs, u) && RunOut(m.cooldownUntil, u, now))
    ensures var e := RunUidJobs(m, jobs, now);
      && SameUsage(m, e, u) && e.groupCooldownUntil == m.groupCooldownUntil
      && (RunOut(e.cooldownUntil, u, now) ==> RunOut(m.cooldownUntil, u, now))
  {
    if jobs == [] {
    } else {
      var rest, j := jobs[..|jobs| - 1], jobs[|jobs| - 1];
      assert j in jobs && forall x | x in rest :: x in jobs;
      UidJobsKeepUsage(m, rest, u, now);
      StepKeepsUsage(RunUidJobs(m, rest, now), j, u, now);
    }
  }

  lemma StepKeepsUsage(m: Meters, j: UidJob, u: Uid, now: nat)
    requires HasCooldown(j.d) && !(j.uid == u && RunOut(m.cooldownUntil, u, now))
    ensures var e := MaintainUid(m, j.uid, j.d, now);
      && SameUsage(m, e, u) && e.groupCooldownUntil == m.groupCooldownUntil
      && (RunOut(e.cooldownUntil, u, now) ==> RunOut(m.cooldownUntil, u, now))
  {}

  /** The pools that the uid is in. */
  ghost predicate NoPoolRunsOut(uidOf: map<string, Uid>, m: Meters, jobs: seq<GroupRule>, u: Uid, now: nat) {
    forall g | g in jobs && Resolves(uidOf, g.members, u) :: !RunOut(m.groupCooldownUntil, g.id, now)
  }

  lemma {:induction false} PoolJobsKeepUsage(uidOf: map<string, Uid>, m: Meters, jobs: seq<GroupRule>, u: Uid, now: nat)
    requires forall g | g in jobs :: g.rules.duration.freezeMinutes > 0
    requires NoPoolRunsOut(uidOf, m, jobs, u, now)
    ensures var e := RunPoolJobs(uidOf, m, jobs, now);
      SameUsage(m, e, u) && forall id | RunOut(e.groupCooldownUntil, id, now) :: RunOut(m.groupCooldownUntil, id, now)
  {
    if jobs == [] {
    } else {
      var rest, g := jobs[..|jobs| - 1], jobs[|jobs| - 1];
      assert g in jobs && forall x | x in rest :: x in jobs;
      PoolJobsKeepUsage(uidOf, m, rest, u, now);
      PoolStepKeepsUsage(uidOf, RunPoolJobs(uidOf, m, rest, now), g, u, now);
    }
  }

  lemma PoolStepKeepsUsage(uidOf: map<string, Uid>, m: Meters, g: GroupRule, u: Uid, now: nat)
    requires g.rules.duration.freezeMinutes > 0
    requires Resolves(uidOf, g.members, u) ==> !RunOut(m.groupCooldownUntil, g.id, now)
    ensures var e := MaintainGroup(uidOf, m, g, now);
      SameUsage(m, e, u) && forall id | RunOut(e.groupCooldownUntil, id, now) :: RunOut(m.groupCooldownUntil, id, now)
  {
    var m1 := m.(groupCooldownUntil := m.groupCooldownUntil - {g.id});
    ZeroMembersSpec(uidOf, m1, g.members);
    hide ZeroMembers, Resolves, PooledUsage;
  }

  /** Usage is zeroed by nothing but a cooldown that has run out. */
  lemma MaintainKeepsUsage(cfg: Config, m: Meters, u: Uid, now: nat)
    requires !Expired(cfg, m, u, now)
    ensures SameUsage(m, Maintain(cfg, m, now), u)
  {
    hide RunUidJobs, RunPoolJobs, AppJobs, GroupMemberJobs, Resolves, RunOut;
    AppJobsCool(cfg.uidOf, cfg.rules.apps);
    GroupJobsCool(cfg.uidOf, cfg.rules.groups);
    UidJobsKeepUsage(m, UidJobs(cfg), u, now);
    PoolJobsKeepUsage(cfg.uidOf, RunUidJobs(m, UidJobs(cfg), now), PoolJobs(cfg.rules.groups), u, now);
  }

  lemma TickCounts(c: Core, u: Uid, t: Tick)
    requires NoReset(c, t.now) && !Expired(c.cfg, c.meters, u, t.now)
    ensures Get(Next(c, t).meters.usageAny, u) == Get(c.meters.usageAny, u) + AnyAdd(c, u, t)
    ensures Get(Next(c, t).meters.usageFg, u) == Get(c.meters.usageFg, u) + FgAdd(c, u, t)
    ensures Next(c, t).lastTick == Some(t.now)
  {
    hide Maintain, UidJobs, PoolJobs, AnyAdd, FgAdd, Elapsed;
    var used := Accumulate(c.cfg, c.meters, Elapsed(c.lastTick, t.now), t.sample);
    AccumulateOnMeter(c, u, t);
    assert used.cooldownUntil == c.meters.cooldownUntil && used.groupCooldownUntil == c.meters.groupCooldownUntil;
    MaintainKeepsUsage(c.cfg, used, u, t.now);
  }

  /** No cooldown that concerns the uid ends at a tick of the run. */
  ghost predicate NoCooldownEnds(c: Core, u: Uid, ticks: seq<Tick>) {
    forall k | 0 <= k < |ticks| :: !Expired(c.cfg, RunTicks(c, ticks[..k]).meters, u, ticks[k].now)
  }

  lemma PrefixOfRun(c: Core, u: Uid, ticks: seq<Tick>)
    requires ticks != [] && Paced(c, ticks) && NoCooldownEnds(c, u, ticks)
    ensures var n := |ticks| - 1;
      && Paced(c, ticks[..n]) && NoCooldownEnds(c, u, ticks[..n])
      && !Expired(c.cfg, RunTicks(c, ticks[..n]).meters, u, ticks[n].now)
  {
    hide Expired, RunTicks;
    forall k | 0 <= k < |ticks| - 1
      ensures ticks[..|ticks| - 1][..k] == ticks[..k] && ticks[..|ticks| - 1][k] == ticks[k]
    {}
  }

  /** Between a reset and the end of a cooldown the counters are exactly the time sampled: nothing is
      lost to the cap and nothing is counted twice. */
  lemma {:induction false} UsageIsExact(c: Core, u: Uid, ticks: seq<Tick>)
    requires WithinDay(c, ticks) && Paced(c, ticks) && NoCooldownEnds(c, u, ticks)
    ensures var e := RunTicks(c, ticks);
      && e.lastTick == Some(PrevTime(c, ticks))
      && Get(e.meters.usageAny, u) == Get(c.meters.usageAny, u) + LiveTime(c, u, ticks)
      && Get(e.meters.usageFg, u) == Get(c.meters.usageFg, u) + ForegroundTime(c, u, ticks)
  {
    hide TickCore, Expired, NoCooldownEnds, IsRunning, IsForeground;
    if ticks == [] {
    } else {
      var n := |ticks| - 1;
      PrefixOfRun(c, u, ticks);
      UsageIsExact(c, u, ticks[..n]);
      RunWithinDay(c, ticks[..n]);
      TickCounts(RunTicks(c, ticks[..n]), u, ticks[n]);
    }
  }

  /** How late a tick may come without exceeding the accounting cap. */
  const MAX_LATE_SECS := MAX_TICK_SECS - ACTIVE_TICK_SECS

  /** The loop slept in this state for as long as the scheduler said, and woke up in time or a little
      late, or was woken up earlier. */
  ghost predicate Slept(c: Core, from: nat, until: nat) {
    exists blocked, i, secs: nat ::
      && ValidInputs(i) && WakeInputsOf(c, blocked, from, i) && IsNextWake(i, secs)
      && from <= until <= from + secs + MAX_LATE_SECS
  }

  /** Every tick of the run ends a sleep that began at the tick before. */
  ghost predicate OnSchedule(c: Core, ticks: seq<Tick>) {
    && c.lastTick.Some?
    && forall k | 0 <= k < |ticks| :: Slept(RunTicks(c, ticks[..k]), PrevTime(c, ticks[..k]), ticks[k].now)
  }

  /** While some rule has a limit, a run on schedule is paced. */
  lemma OnScheduleIsPaced(c: Core, ticks: seq<Tick>)
    requires SomeLimit(c.cfg.rules) && OnSchedule(c, ticks)
    ensures Paced(c, ticks)
  {
    hide SomeLimit, IsNextWake, ValidInputs;
    forall k | 0 <= k < |ticks|
      ensures PrevTime(c, ticks[..k]) <= ticks[k].now <= PrevTime(c, ticks[..k]) + MAX_TICK_SECS
    {
      var e, from := RunTicks(c, ticks[..k]), PrevTime(c, ticks[..k]);
      RunKeepsConfig(c, ticks[..k]);
      var blocked, i, secs: nat :| ValidInputs(i) && WakeInputsOf(e, blocked, from, i) && IsNextWake(i, secs)
        && from <= ticks[k].now <= from + secs + MAX_LATE_SECS;
      ScheduleStaysBelowCap(i, secs);
    }
  }

  lemma {:induction false} RunKeepsConfig(c: Core, ticks: seq<Tick>)
    ensures RunTicks(c, ticks).cfg == c.cfg
  {
    hide Maintain, Accumulate;
    if ticks == [] {
    } else {
      RunKeepsConfig(c, ticks[..|ticks| - 1]);
    }
  }

  /** Ticking when the schedule says, at most 45 seconds late, the counters are exactly the time sampled. */
  lemma UsageIsExactOnSchedule(c: Core, u: Uid, ticks: seq<Tick>)
    requires SomeLimit(c.cfg.rules) && WithinDay(c, ticks) && OnSchedule(c, ticks) && NoCooldownEnds(c, u, ticks)
    ensures var e := RunTicks(c, ticks);
      && Get(e.meters.usageAny, u) == Get(c.meters.usageAny, u) + LiveTime(c, u, ticks)
      && Get(e.meters.usageFg, u) == Get(c.meters.usageFg, u) + ForegroundTime(c, u, ticks)
  {
    hide SomeLimit, WithinDay, OnSchedule, NoCooldownEnds, RunTicks, Paced;
    OnScheduleIsPaced(c, ticks);
    UsageIsExact(c, u, ticks);
  }

  // ---------- foreground time is part of running time ----------

  ghost predicate FgWithinAny(m: Meters) {
    forall u :: Get(m.usageFg, u) <= Get(m.usageAny, u)
  }

  lemma RelaxedKeepsFgWithinAny(m: Meters, e: Meters, now: nat)
    requires Relaxed(m, e, now) && FgWithinAny(m)
    ensures FgWithinAny(e)
  {
    forall u ensures Get(e.usageFg, u) <= Get(e.usageAny, u) {
      assert SameUsage(m, e, u) || NoUsage(e, u);
    }
  }

  lemma AccumulateKeepsFgWithinAny(cfg: Config, m: Meters, elapsed: nat, s: Sample)
    requires NeedsLiveScan(cfg.rules) && FgWithinAny(m)
    ensures FgWithinAny(Accumulate(cfg, m, elapsed, s))
  {
    var targets := DurationTargets(cfg);
    assert FgUids(s, true, targets) <= LiveUids(s, true, targets);
  }

  /** While the live scan is needed, a uid's foreground time never exceeds its running time, so
      background time is an exact difference; this holds for every tick, also across resets. */
  lemma TickKeepsFgWithinAny(c: Core, t: Tick)
    requires NeedsLiveScan(c.cfg.rules) && FgWithinAny(c.meters)
    ensures FgWithinAny(Next(c, t).meters)
    ensures var m := Next(c, t).meters;
      forall u :: ScopedUsage(m, u, "background") == Get(m.usageAny, u) - Get(m.usageFg, u)
  {
    hide Accumulate, RunUidJobs, RunPoolJobs, Relaxed;
    var c1 := DailyReset(c, t.now);
    var used := Accumulate(c.cfg, c1.meters, Elapsed(c.lastTick, t.now), t.sample);
    AccumulateKeepsFgWithinAny(c.cfg, c1.meters, Elapsed(c.lastTick, t.now), t.sample);
    var mid := RunUidJobs(used, UidJobs(c.cfg), t.now);
    UidJobsSettle(c.cfg.uidOf, used, UidJobs(c.cfg), t.now);
    RelaxedKeepsFgWithinAny(used, mid, t.now);
    var e := RunPoolJobs(c.cfg.uidOf, mid, PoolJobs(c.cfg.rules.groups), t.now);
    PoolJobsSettle(c.cfg.uidOf, mid, PoolJobs(c.cfg.rules.groups), t.now);
    RelaxedKeepsFgWithinAny(mid, e, t.now);
  }

  lemma {:induction false} RunKeepsFgWithinAny(c: Core, ticks: seq<Tick>)
    requires NeedsLiveScan(c.cfg.rules) && FgWithinAny(c.meters)
    ensures RunTicks(c, ticks).cfg == c.cfg && FgWithinAny(RunTicks(c, ticks).meters)
  {
    hide Accumulate, Maintain, FgWithinAny, NeedsLiveScan;
    if ticks == [] {
    } else {
      RunKeepsFgWithinAny(c, ticks[..|ticks| - 1]);
      TickKeepsFgWithinAny(RunTicks(c, ticks[..|ticks| - 1]), ticks[|ticks| - 1]);
    }
  }
}
