/** Cooldowns: what the maintenance pass of a tick establishes, and the cycle over whole days. */
module Cooldowns {
  import opened Rules
  import opened Calendar
  import opened Foreground
  import opened EngineState
  import opened Wants

  // ---------- after the maintenance pass ----------

  predicate UidSettled(m: Meters, uid: Uid, d: DurationRule, now: nat) {
    Active(m.cooldownUntil, uid, now) || ScopedUsage(m, uid, d.scope) < d.limitMinutes * 60
  }

  predicate PoolSettled(uidOf: map<string, Uid>, m: Meters, g: GroupRule, now: nat) {
    || Active(m.groupCooldownUntil, g.id, now)
    || PooledUsage(uidOf, m, g.members, g.rules.duration.scope) < g.rules.duration.limitMinutes * 60
  }

  ghost predicate SameUsage(m: Meters, e: Meters, u: Uid) {
    Get(e.usageAny, u) == Get(m.usageAny, u) && Get(e.usageFg, u) == Get(m.usageFg, u)
  }

  ghost predicate NoUsage(m: Meters, u: Uid) {
    Get(m.usageAny, u) == 0 && Get(m.usageFg, u) == 0
  }

  /** What a maintenance step never undoes: active cooldowns stay, usage is kept or zeroed. */
  ghost predicate Relaxed(m: Meters, e: Meters, now: nat) {
    && (forall u | Active(m.cooldownUntil, u, now) :: Active(e.cooldownUntil, u, now))
    && (forall id | Active(m.groupCooldownUntil, id, now) :: Active(e.groupCooldownUntil, id, now))
    && (forall u :: SameUsage(m, e, u) || NoUsage(e, u))
  }

  lemma {:induction false} RelaxedKeepsPools(uidOf: map<string, Uid>, m: Meters, e: Meters, now: nat,
                                             members: seq<string>, scope: string)
    requires Relaxed(m, e, now)
    ensures PooledUsage(uidOf, e, members, scope) <= PooledUsage(uidOf, m, members, scope)
  {
    if members == [] {
    } else {
      RelaxedKeepsPools(uidOf, m, e, now, members[..|members| - 1], scope);
      var key := members[|members| - 1];
      assert key in uidOf ==> SameUsage(m, e, uidOf[key]) || NoUsage(e, uidOf[key]);
    }
  }

  lemma RelaxedKeepsSettled(uidOf: map<string, Uid>, m: Meters, e: Meters, now: nat)
    requires Relaxed(m, e, now)
    ensures forall uid, d | UidSettled(m, uid, d, now) :: UidSettled(e, uid, d, now)
    ensures forall g | PoolSettled(uidOf, m, g, now) :: PoolSettled(uidOf, e, g, now)
  {
    forall uid, d | UidSettled(m, uid, d, now) ensures UidSettled(e, uid, d, now) {
      assert SameUsage(m, e, uid) || NoUsage(e, uid);
    }
    forall g | PoolSettled(uidOf, m, g, now) ensures PoolSettled(uidOf, e, g, now) {
      RelaxedKeepsPools(uidOf, m, e, now, g.members, g.rules.duration.scope);
    }
  }

  predicate Resolves(uidOf: map<string, Uid>, members: seq<string>, u: Uid) {
    exists key | key in members :: key in uidOf && uidOf[key] == u
  }

  lemma {:induction false} ZeroMembersSpec(uidOf: map<string, Uid>, m: Meters, members: seq<string>)
    ensures var e := ZeroMembers(uidOf, m, members);
      && e.cooldownUntil == m.cooldownUntil && e.groupCooldownUntil == m.groupCooldownUntil
      && forall u :: if Resolves(uidOf, members, u) then NoUsage(e, u) else SameUsage(m, e, u)
  {
    if members == [] {
    } else {
      var rest, key := members[..|members| - 1], members[|members| - 1];
      ZeroMembersSpec(uidOf, m, rest);
      assert forall x :: x in members <==> x in rest || x == key;
      forall u
        ensures Resolves(uidOf, members, u) == (Resolves(uidOf, rest, u) || (key in uidOf && uidOf[key] == u))
      {}
    }
  }

  lemma {:induction false} PoolOfZeroedMembers(uidOf: map<string, Uid>, m: Meters, members: seq<string>, scope: string)
    requires forall u | Resolves(uidOf, members, u) :: NoUsage(m, u)
    ensures PooledUsage(uidOf, m, members, scope) == 0
  {
    if members == [] {
    } else {
      var rest, key := members[..|members| - 1], members[|members| - 1];
      assert key in members && forall x | x in rest :: x in members;
      assert key in uidOf ==> Resolves(uidOf, members, uidOf[key]);
      forall u | Resolves(uidOf, rest, u) ensures NoUsage(m, u) {
        assert Resolves(uidOf, members, u);
      }
      PoolOfZeroedMembers(uidOf, m, rest, scope);
    }
  }

  lemma MaintainUidSettles(m: Meters, uid: Uid, d: DurationRule, now: nat)
    ensures Relaxed(m, MaintainUid(m, uid, d, now), now)
    ensures HasCooldown(d) ==> UidSettled(MaintainUid(m, uid, d, now), uid, d, now)
  {}

  lemma MaintainGroupSettles(uidOf: map<string, Uid>, m: Meters, g: GroupRule, now: nat)
    ensures Relaxed(m, MaintainGroup(uidOf, m, g, now), now)
    ensures HasCooldown(g.rules.duration) ==> PoolSettled(uidOf, MaintainGroup(uidOf, m, g, now), g, now)
    ensures MaintainGroup(uidOf, m, g, now).cooldownUntil == m.cooldownUntil
    ensures forall u | !Resolves(uidOf, g.members, u) :: SameUsage(m, MaintainGroup(uidOf, m, g, now), u)
  {
    var m1 := m.(groupCooldownUntil := m.groupCooldownUntil - {g.id});
    var zeroed := ZeroMembers(uidOf, m1, g.members);
    ZeroMembersSpec(uidOf, m1, g.members);
    forall u ensures if Resolves(uidOf, g.members, u) then NoUsage(zeroed, u) else SameUsage(m, zeroed, u) {
      assert SameUsage(m1, zeroed, u) ==> SameUsage(m, zeroed, u);
    }
    PoolOfZeroedMembers(uidOf, zeroed, g.members, g.rules.duration.scope);
    hide ZeroMembers, Resolves;
    var e := MaintainGroup(uidOf, m, g, now);
    assert || (e.usageAny, e.usageFg) == (m.usageAny, m.usageFg)
           || (e.usageAny, e.usageFg) == (zeroed.usageAny, zeroed.usageFg);
    forall u ensures if Resolves(uidOf, g.members, u) then NoUsage(e, u) || SameUsage(m, e, u) else SameUsage(m, e, u) {
    }
    SameUsageSamePool(uidOf, zeroed, e, g.members, g.rules.duration.scope);
    SameUsageSamePool(uidOf, m, e, g.members, g.rules.duration.scope);
  }

  lemma {:induction false} SameUsageSamePool(uidOf: map<string, Uid>, m: Meters, e: Meters,
                                             members: seq<string>, scope: string)
    ensures m.usageAny == e.usageAny && m.usageFg == e.usageFg ==>
      PooledUsage(uidOf, m, members, scope) == PooledUsage(uidOf, e, members, scope)
  {
    if members == [] {
    } else {
      SameUsageSamePool(uidOf, m, e, members[..|members| - 1], scope);
    }
  }

  lemma {:induction false} UidJobsSettle(uidOf: map<string, Uid>, m: Meters, jobs: seq<UidJob>, now: nat)
    ensures Relaxed(m, RunUidJobs(m, jobs, now), now)
    ensures forall j | j in jobs && HasCooldown(j.d) :: UidSettled(RunUidJobs(m, jobs, now), j.uid, j.d, now)
  {
    if jobs == [] {
    } else {
      var j, before := jobs[|jobs| - 1], RunUidJobs(m, jobs[..|jobs| - 1], now);
      UidJobsSettle(uidOf, m, jobs[..|jobs| - 1], now);
      MaintainUidSettles(before, j.uid, j.d, now);
      RelaxedKeepsSettled(uidOf, before, RunUidJobs(m, jobs, now), now);
      RelaxedTrans(m, before, RunUidJobs(m, jobs, now), now);
    }
  }

  lemma RelaxedTrans(m: Meters, mid: Meters, e: Meters, now: nat)
    requires Relaxed(m, mid, now) && Relaxed(mid, e, now)
    ensures Relaxed(m, e, now)
  {
    forall u ensures SameUsage(m, e, u) || NoUsage(e, u) {
      assert (SameUsage(m, mid, u) || NoUsage(mid, u)) && (SameUsage(mid, e, u) || NoUsage(e, u));
    }
  }

  lemma {:induction false} PoolJobsSettle(uidOf: map<string, Uid>, m: Meters, jobs: seq<GroupRule>, now: nat)
    ensures Relaxed(m, RunPoolJobs(uidOf, m, jobs, now), now)
    ensures forall g | g in jobs && HasCooldown(g.rules.duration) ::
      PoolSettled(uidOf, RunPoolJobs(uidOf, m, jobs, now), g, now)
  {
    if jobs == [] {
    } else {
      var g, before := jobs[|jobs| - 1], RunPoolJobs(uidOf, m, jobs[..|jobs| - 1], now);
      PoolJobsSettle(uidOf, m, jobs[..|jobs| - 1], now);
      MaintainGroupSettles(uidOf, before, g, now);
      RelaxedKeepsSettled(uidOf, before, RunPoolJobs(uidOf, m, jobs, now), now);
      RelaxedTrans(m, before, RunPoolJobs(uidOf, m, jobs, now), now);
    }
  }

  /** After the pass every enabled rule with a limit and a cooldown is either cooling down or strictly
      below its limit, however apps, groups and uids overlap. */
  lemma MaintenanceSettlesAll(cfg: Config, m: Meters, now: nat)
    ensures var e, uidOf := Maintain(cfg, m, now), cfg.uidOf;
      && (forall a | a in cfg.rules.apps && a.enabled && HasCooldown(a.rules.duration) && a.key in uidOf ::
            UidSettled(e, uidOf[a.key], a.rules.duration, now))
      && (forall g, key | g in cfg.rules.groups && g.enabled && HasCooldown(g.rules.duration) && !g.sharedPool
                          && key in g.members && key in uidOf ::
            UidSettled(e, uidOf[key], g.rules.duration, now))
      && (forall g | g in cfg.rules.groups && g.enabled && HasCooldown(g.rules.duration) && g.sharedPool ::
            PoolSettled(uidOf, e, g, now))
  {
    var uidOf := cfg.uidOf;
    var mid, e := RunUidJobs(m, UidJobs(cfg), now), Maintain(cfg, m, now);
    UidJobsSettle(uidOf, m, UidJobs(cfg), now);
    PoolJobsSettle(uidOf, mid, PoolJobs(cfg.rules.groups), now);
    RelaxedKeepsSettled(uidOf, mid, e, now);
    forall a | a in cfg.rules.apps && a.enabled && HasCooldown(a.rules.duration) && a.key in uidOf
      ensures UidSettled(e, uidOf[a.key], a.rules.duration, now)
    {
      assert UidJob(uidOf[a.key], a.rules.duration) in UidJobs(cfg);
    }
    forall g, key | g in cfg.rules.groups && g.enabled && HasCooldown(g.rules.duration) && !g.sharedPool
                    && key in g.members && key in uidOf
      ensures UidSettled(e, uidOf[key], g.rules.duration, now)
    {
      assert UidJob(uidOf[key], g.rules.duration) in UidJobs(cfg);
    }
  }

  // ---------- one uid under one rule ----------

  /** The part of the state that the cooldown cycle of one uid reads and writes. */
  datatype Meter = Meter(until: Option<nat>, any: nat, fg: nat)

  function MeterOf(m: Meters, u: Uid): Meter {
    Meter(if u in m.cooldownUntil then Some(m.cooldownUntil[u]) else None, Get(m.usageAny, u), Get(m.usageFg, u))
  }

  function Used(m: Meter, d: DurationRule): nat { Scoped(m.any, m.fg, d.scope) }

  function StepMeter(m: Meter, d: DurationRule, now: nat): Meter {
    if m.until.Some? && now < m.until.value then m
    else
      var m1 := if m.until.Some? then Meter(None, 0, 0) else m;
      if Used(m1, d) >= d.limitMinutes * 60 then m1.(until := Some(now + d.freezeMinutes * 60)) else m1
  }

  /** All duration jobs that touch the uid are for this one rule with a limit and a cooldown. */
  ghost predicate OneRule(cfg: Config, u: Uid, d: DurationRule) {
    && HasCooldown(d)
    && (exists j | j in UidJobs(cfg) :: j.uid == u)
    && (forall j | j in UidJobs(cfg) && j.uid == u :: j.d == d)
    && (forall g | g in PoolJobs(cfg.rules.groups) :: !Resolves(cfg.uidOf, g.members, u))
  }

  lemma MaintainUidOnMeter(m: Meters, uid: Uid, d: DurationRule, now: nat, u: Uid)
    ensures MeterOf(MaintainUid(m, uid, d, now), u)
         == if u == uid then StepMeter(MeterOf(m, u), d, now) else MeterOf(m, u)
  {}

  predicate Mentions(jobs: seq<UidJob>, u: Uid) {
    exists j | j in jobs :: j.uid == u
  }

  lemma {:induction false} UidJobsOnMeter(m: Meters, jobs: seq<UidJob>, u: Uid, d: DurationRule, now: nat)
    requires HasCooldown(d) && forall j | j in jobs && j.uid == u :: j.d == d
    ensures MeterOf(RunUidJobs(m, jobs, now), u)
         == if Mentions(jobs, u) then StepMeter(MeterOf(m, u), d, now) else MeterOf(m, u)
  {
    if jobs == [] {
    } else {
      var rest, j := jobs[..|jobs| - 1], jobs[|jobs| - 1];
      UidJobsOnMeter(m, rest, u, d, now);
      MaintainUidOnMeter(RunUidJobs(m, rest, now), j.uid, j.d, now, u);
      assert forall x :: x in jobs <==> x in rest || x == j;
      assert Mentions(jobs, u) == (Mentions(rest, u) || j.uid == u);
    }
  }

  lemma {:induction false} PoolJobsOnMeter(uidOf: map<string, Uid>, m: Meters, jobs: seq<GroupRule>, u: Uid, now: nat)
    requires forall g | g in jobs :: !Resolves(uidOf, g.members, u)
    ensures MeterOf(RunPoolJobs(uidOf, m, jobs, now), u) == MeterOf(m, u)
  {
    if jobs == [] {
    } else {
      var rest, g := jobs[..|jobs| - 1], jobs[|jobs| - 1];
      assert g in jobs;
      PoolJobsOnMeter(uidOf, m, rest, u, now);
      MaintainGroupSettles(uidOf, RunPoolJobs(uidOf, m, rest, now), g, now);
    }
  }

  lemma MaintainOnMeter(cfg: Config, m: Meters, u: Uid, d: DurationRule, now: nat)
    requires OneRule(cfg, u, d)
    ensures MeterOf(Maintain(cfg, m, now), u) == StepMeter(MeterOf(m, u), d, now)
  {
    UidJobsOnMeter(m, UidJobs(cfg), u, d, now);
    PoolJobsOnMeter(cfg.uidOf, RunUidJobs(m, UidJobs(cfg), now), PoolJobs(cfg.rules.groups), u, now);
  }

  /** Some enabled app or group rule with a limit has a key or a member that resolves to the uid. */
  predicate Limited(cfg: Config, u: Uid) {
    || (exists a | a in cfg.rules.apps ::
          a.enabled && a.rules.duration.limitMinutes > 0 && a.key in cfg.uidOf && cfg.uidOf[a.key] == u)
    || (exists g, m | g in cfg.rules.groups && m in g.members ::
          g.enabled && g.rules.duration.limitMinutes > 0 && m in cfg.uidOf && cfg.uidOf[m] == u)
  }

  predicate CountsRunning(d: DurationRule) { d.limitMinutes > 0 && d.scope != "foreground" }

  /** Some enabled limit counts more than foreground time, so all processes are looked at. */
  predicate ScansAll(rules: RuleFile) {
    || (exists a | a in rules.apps :: a.enabled && CountsRunning(a.rules.duration))
    || (exists g | g in rules.groups :: g.enabled && CountsRunning(g.rules.duration))
  }

  /** A limited uid counts as running when it owns a listed process, if all processes are looked at. */
  predicate IsRunning(cfg: Config, u: Uid, s: Sample) {
    Limited(cfg, u) && ScansAll(cfg.rules) && exists pid | pid in s.procs :: pid > 1 && s.procs[pid] == u
  }

  /** It counts as in the foreground when it owns a process of the foreground group. */
  predicate IsForeground(cfg: Config, u: Uid, s: Sample) {
    Limited(cfg, u) && exists pid | pid in s.topPids && pid in s.procs ::
      s.procs[pid] == u && (ScansAll(cfg.rules) ==> pid > 1)
  }

  /** The time a tick accounts for: none at first and when the clock went back, and a minute at most. */
  function SinceLast(lastTick: Option<nat>, now: nat): nat {
    if lastTick.None? || now <= lastTick.value then 0
    else if now - lastTick.value > 60 then 60
    else now - lastTick.value
  }

  /** The seconds a tick adds to the two counters of a uid. */
  function AnyAdd(c: Core, u: Uid, t: Tick): nat {
    if IsRunning(c.cfg, u, t.sample) then SinceLast(c.lastTick, t.now) else 0
  }

  function FgAdd(c: Core, u: Uid, t: Tick): nat {
    if IsForeground(c.cfg, u, t.sample) then SinceLast(c.lastTick, t.now) else 0
  }

  lemma TargetsAreLimited(cfg: Config, u: Uid)
    ensures u in DurationTargets(cfg) <==> Limited(cfg, u)
  {}

  lemma ScanIsNeeded(cfg: Config, u: Uid)
    ensures NeedsLiveScan(cfg.rules) <==> ScansAll(cfg.rules)
    ensures Limited(cfg, u) ==> NeedsUsage(cfg.rules)
  {
    forall s ensures s in EnabledSets(cfg.rules) <==> EnabledSet(cfg.rules, s) {
      EnabledSetsIff(cfg.rules, s);
    }
    hide EnabledSets;
  }

  /** The pass over the processes samples exactly those uids. */
  lemma SamplesAre(cfg: Config, u: Uid, s: Sample)
    ensures u in LiveUids(s, NeedsLiveScan(cfg.rules), DurationTargets(cfg)) <==> IsRunning(cfg, u, s)
    ensures u in FgUids(s, NeedsLiveScan(cfg.rules), DurationTargets(cfg)) <==> IsForeground(cfg, u, s)
  {
    hide DurationTargets, NeedsLiveScan, ScansAll, Limited;
    TargetsAreLimited(cfg, u);
    ScanIsNeeded(cfg, u);
  }

  datatype Tick = Tick(now: nat, sample: Sample)

  ghost predicate NoReset(c: Core, now: nat) {
    c.lastDay == Some(Today(now, c.cfg.zone))
  }

  lemma AccumulateOnMeter(c: Core, u: Uid, t: Tick)
    ensures var e := Accumulate(c.cfg, c.meters, Elapsed(c.lastTick, t.now), t.sample);
      MeterOf(e, u) == Meter(MeterOf(c.meters, u).until,
        Get(c.meters.usageAny, u) + AnyAdd(c, u, t), Get(c.meters.usageFg, u) + FgAdd(c, u, t))
  {
    hide DurationTargets, NeedsLiveScan, ScansAll, Limited, LiveUids, FgUids, IsRunning, IsForeground, NeedsUsage;
    SamplesAre(c.cfg, u, t.sample);
    ScanIsNeeded(c.cfg, u);
    SampledIsLimited(c.cfg, u, t.sample);
  }

  lemma SampledIsLimited(cfg: Config, u: Uid, s: Sample)
    ensures IsRunning(cfg, u, s) || IsForeground(cfg, u, s) ==> Limited(cfg, u)
  {
    hide Limited;
  }

  /** Both counters of every uid have gained exactly what the tick adds. */
  ghost predicate CountsTick(c: Core, e: Meters, t: Tick) {
    forall u ::
      && Get(e.usageAny, u) == Get(c.meters.usageAny, u) + AnyAdd(c, u, t)
      && Get(e.usageFg, u) == Get(c.meters.usageFg, u) + FgAdd(c, u, t)
  }

  lemma AccumulateCountsTick(c: Core, t: Tick)
    ensures CountsTick(c, Accumulate(c.cfg, c.meters, Elapsed(c.lastTick, t.now), t.sample), t)
  {
    hide Accumulate, AnyAdd, FgAdd;
    forall u {
      AccumulateOnMeter(c, u, t);
    }
  }

  function Sampled(c: Core, u: Uid, t: Tick): Meter {
    var m := MeterOf(c.meters, u);
    m.(any := m.any + AnyAdd(c, u, t), fg := m.fg + FgAdd(c, u, t))
  }

  /** Within a day a tick acts on such a uid exactly as one accounting and one cycle step. */
  lemma TickOnMeter(c: Core, u: Uid, d: DurationRule, t: Tick)
    requires OneRule(c.cfg, u, d) && NoReset(c, t.now)
    ensures MeterOf(TickCore(c, t.now, t.sample).meters, u) == StepMeter(Sampled(c, u, t), d, t.now)
  {
    hide Maintain, Accumulate, OneRule, StepMeter;
    AccumulateOnMeter(c, u, t);
    MaintainOnMeter(c.cfg, Accumulate(c.cfg, c.meters, Elapsed(c.lastTick, t.now), t.sample), u, d, t.now);
  }

  // ---------- whole runs within a day ----------

  function Next(c: Core, t: Tick): Core { TickCore(c, t.now, t.sample) }

  /** The state after a run of ticks. */
  function RunTicks(c: Core, ticks: seq<Tick>): Core {
    if ticks == [] then c else Next(RunTicks(c, ticks[..|ticks| - 1]), ticks[|ticks| - 1])
  }

  ghost predicate WithinDay(c: Core, ticks: seq<Tick>) {
    forall k | 0 <= k < |ticks| :: NoReset(c, ticks[k].now)
  }

  lemma {:induction false} RunWithinDay(c: Core, ticks: seq<Tick>)
    requires WithinDay(c, ticks)
    ensures var e := RunTicks(c, ticks); e.cfg == c.cfg && e.budget == c.budget && e.lastDay == c.lastDay
  {
    if ticks == [] {
    } else {
      RunWithinDay(c, ticks[..|ticks| - 1]);
    }
  }

  /** The rule that governs the uid is enabled and not exempted now, and its cooldown is per uid. */
  ghost predicate GovernedPerUid(cfg: Config, b: Budget, u: Uid, now: nat) {
    var g, a := LastGroup(cfg, cfg.rules.groups, u), LastApp(cfg, cfg.rules.apps, u);
    if g.Some? then g.value.enabled && !g.value.sharedPool && !Active(b.groupExtUntil, g.value.id, now)
    else a.Some? && a.value.enabled && !Active(b.extUntil, u, now)
  }

  /** Every deadline still ahead stays as it is. */
  ghost predicate KeepsDeadlines<K(!new)>(m: map<K, nat>, e: map<K, nat>, now: nat) {
    forall k | Active(m, k, now) :: k in e && e[k] == m[k]
  }

  lemma {:induction false} UidJobsKeepDeadlines(m: Meters, jobs: seq<UidJob>, now: nat)
    ensures var e := RunUidJobs(m, jobs, now);
      KeepsDeadlines(m.cooldownUntil, e.cooldownUntil, now) && e.groupCooldownUntil == m.groupCooldownUntil
  {
    if jobs == [] {
    } else {
      UidJobsKeepDeadlines(m, jobs[..|jobs| - 1], now);
    }
  }

  lemma {:induction false} PoolJobsKeepDeadlines(uidOf: map<string, Uid>, m: Meters, jobs: seq<GroupRule>, now: nat)
    ensures var e := RunPoolJobs(uidOf, m, jobs, now);
      KeepsDeadlines(m.groupCooldownUntil, e.groupCooldownUntil, now) && e.cooldownUntil == m.cooldownUntil
  {
    if jobs == [] {
    } else {
      var rest, g := jobs[..|jobs| - 1], jobs[|jobs| - 1];
      var before := RunPoolJobs(uidOf, m, rest, now);
      PoolJobsKeepDeadlines(uidOf, m, rest, now);
      ZeroMembersSpec(uidOf, before.(groupCooldownUntil := before.groupCooldownUntil - {g.id}), g.members);
      hide ZeroMembers, PooledUsage, Resolves;
    }
  }

  lemma TickKeepsDeadlines(c: Core, t: Tick)
    requires NoReset(c, t.now)
    ensures KeepsDeadlines(c.meters.cooldownUntil, Next(c, t).meters.cooldownUntil, t.now)
    ensures KeepsDeadlines(c.meters.groupCooldownUntil, Next(c, t).meters.groupCooldownUntil, t.now)
  {
    hide RunUidJobs, RunPoolJobs, UidJobs, PoolJobs, AddToAll, LiveUids, FgUids, DurationTargets, Elapsed;
    var used := Accumulate(c.cfg, c.meters, Elapsed(c.lastTick, t.now), t.sample);
    UidJobsKeepDeadlines(used, UidJobs(c.cfg), t.now);
    PoolJobsKeepDeadlines(c.cfg.uidOf, RunUidJobs(used, UidJobs(c.cfg), t.now), PoolJobs(c.cfg.rules.groups), t.now);
  }

  /** A cooldown slot: of one uid, or of a shared pool. */
  predicate CoolsUntil(m: Meters, slot: Slot, until: nat) {
    match slot
    case UidSlot(uid) => uid in m.cooldownUntil && m.cooldownUntil[uid] == until
    case GroupSlot(id) => id in m.groupCooldownUntil && m.groupCooldownUntil[id] == until
  }

  /** The uid is governed by an enabled rule without a running extension whose cooldown is kept in the
      slot. */
  ghost predicate GovernedBy(cfg: Config, b: Budget, u: Uid, slot: Slot, now: nat) {
    match slot
    case UidSlot(uid) => uid == u && GovernedPerUid(cfg, b, u, now)
    case GroupSlot(id) =>
      var g := LastGroup(cfg, cfg.rules.groups, u);
      g.Some? && g.value.id == id && g.value.enabled && g.value.sharedPool && !Active(b.groupExtUntil, id, now)
  }

  lemma CoolingBlocks(c: Core, u: Uid, slot: Slot, until: nat, now: nat, off: bool)
    requires CoolsUntil(c.meters, slot, until) && now < until && GovernedBy(c.cfg, c.budget, u, slot, now)
    ensures u in WantedBlocks(c, now, off)
  {
    WantRefinesGoverning(c, u, now, off);
  }

  /** A running cooldown, of a uid or of a pool, is never extended or cut short within the day, whatever
      rules overlap, and every tick before its deadline leaves each uid it governs blocked that has no
      extension running at that tick. */
  lemma {:induction false} CooldownHolds(c: Core, slot: Slot, ticks: seq<Tick>, until: nat)
    requires WithinDay(c, ticks) && CoolsUntil(c.meters, slot, until)
    requires forall k | 0 <= k < |ticks| :: ticks[k].now < until
    ensures CoolsUntil(RunTicks(c, ticks).meters, slot, until)
    ensures forall u, k | 0 <= k < |ticks| && GovernedBy(c.cfg, c.budget, u, slot, ticks[k].now) ::
      u in TickBlocks(RunTicks(c, ticks[..k]), ticks[k].now, ticks[k].sample)
  {
    hide TickCore, GovernedBy, WantedBlocks;
    if ticks == [] {
    } else {
      var n := |ticks| - 1;
      var before, t := RunTicks(c, ticks[..n]), ticks[n];
      CooldownHolds(c, slot, ticks[..n], until);
      RunWithinDay(c, ticks[..n]);
      RunWithinDay(c, ticks);
      TickKeepsDeadlines(before, t);
      forall u, k | 0 <= k < |ticks| && GovernedBy(c.cfg, c.budget, u, slot, ticks[k].now)
        ensures u in TickBlocks(RunTicks(c, ticks[..k]), ticks[k].now, ticks[k].sample)
      {
        if k == n {
          CoolingBlocks(Next(before, t), u, slot, until, t.now, SeenScreenOff(before.cfg.rules, t.sample));
        } else {
          assert ticks[..n][..k] == ticks[..k] && ticks[..n][k] == ticks[k];
        }
      }
    }
  }

  // ---------- the end of a cooldown ----------

  predicate RunOut<K(==)>(m: map<K, nat>, k: K, now: nat) {
    k in m && m[k] <= now
  }

  predicate AllCool(jobs: seq<UidJob>) {
    forall j | j in jobs :: HasCooldown(j.d)
  }

  lemma {:induction false} AppJobsCool(uidOf: map<string, Uid>, apps: seq<AppRule>)
    ensures AllCool(AppJobs(uidOf, apps))
  {
    if apps == [] {
    } else {
      AppJobsCool(uidOf, apps[..|apps| - 1]);
    }
  }

  lemma {:induction false} MemberJobsCool(uidOf: map<string, Uid>, d: DurationRule, members: seq<string>)
    requires HasCooldown(d)
    ensures AllCool(MemberJobs(uidOf, d, members))
  {
    if members == [] {
    } else {
      MemberJobsCool(uidOf, d, members[..|members| - 1]);
    }
  }

  lemma {:induction false} GroupJobsCool(uidOf: map<string, Uid>, groups: seq<GroupRule>)
    ensures AllCool(GroupMemberJobs(uidOf, groups))
  {
    if groups == [] {
    } else {
      var g := groups[|groups| - 1];
      GroupJobsCool(uidOf, groups[..|groups| - 1]);
      if HasCooldown(g.rules.duration) {
        MemberJobsCool(uidOf, g.rules.duration, g.members);
      }
    }
  }

  lemma {:induction false} UidJobsEnd(m: Meters, jobs: seq<UidJob>, u: Uid, now: nat)
    requires AllCool(jobs)
    ensures var e := RunUidJobs(m, jobs, now);
      && (RunOut(m.cooldownUntil, u, now) && Mentions(jobs, u) ==> u !in e.cooldownUntil && NoUsage(e, u))
      && (u !in m.cooldownUntil && NoUsage(m, u) ==> u !in e.cooldownUntil && NoUsage(e, u))
      && (RunOut(m.cooldownUntil, u, now) && !Mentions(jobs, u) ==> RunOut(e.cooldownUntil, u, now))
  {
    if jobs == [] {
    } else {
      var rest, j := jobs[..|jobs| - 1], jobs[|jobs| - 1];
      assert j in jobs && forall x :: x in jobs <==> x in rest || x == j;
      UidJobsEnd(m, rest, u, now);
      UidJobEnds(RunUidJobs(m, rest, now), j, u, now);
    }
  }

  lemma UidJobEnds(m: Meters, j: UidJob, u: Uid, now: nat)
    requires HasCooldown(j.d)
    ensures var e := MaintainUid(m, j.uid, j.d, now);
      && (u == j.uid && RunOut(m.cooldownUntil, u, now) ==> u !in e.cooldownUntil && NoUsage(e, u))
      && (u !in m.cooldownUntil && NoUsage(m, u) ==> u !in e.cooldownUntil && NoUsage(e, u))
      && (u != j.uid && RunOut(m.cooldownUntil, u, now) ==> RunOut(e.cooldownUntil, u, now))
  {}

  lemma AccumulateKeepsDeadlines(cfg: Config, m: Meters, elapsed: nat, s: Sample)
    ensures var e := Accumulate(cfg, m, elapsed, s);
      e.cooldownUntil == m.cooldownUntil && e.groupCooldownUntil == m.groupCooldownUntil
  {}

  /** The tick that finds a uid's cooldown expired ends it, zeroes the usage and starts no other,
      whatever rules overlap. */
  lemma CooldownEnds(c: Core, u: Uid, t: Tick)
    requires NoReset(c, t.now) && Mentions(UidJobs(c.cfg), u) && RunOut(c.meters.cooldownUntil, u, t.now)
    ensures var e := Next(c, t).meters; u !in e.cooldownUntil && NoUsage(e, u)
  {
    hide RunUidJobs, RunPoolJobs, AppJobs, GroupMemberJobs, PoolJobs, Accumulate, Mentions, RunOut;
    var elapsed := Elapsed(c.lastTick, t.now);
    var used := Accumulate(c.cfg, c.meters, elapsed, t.sample);
    AccumulateKeepsDeadlines(c.cfg, c.meters, elapsed, t.sample);
    AppJobsCool(c.cfg.uidOf, c.cfg.rules.apps);
    GroupJobsCool(c.cfg.uidOf, c.cfg.rules.groups);
    UidJobsEnd(used, UidJobs(c.cfg), u, t.now);
    var mid := RunUidJobs(used, UidJobs(c.cfg), t.now);
    PoolJobsSettle(c.cfg.uidOf, mid, PoolJobs(c.cfg.rules.groups), t.now);
    PoolJobsKeepDeadlines(c.cfg.uidOf, mid, PoolJobs(c.cfg.rules.groups), t.now);
  }

  lemma {:induction false} PoolJobsAreDistinct(groups: seq<GroupRule>)
    requires DistinctIds(groups)
    ensures DistinctIds(PoolJobs(groups))
  {
    if groups == [] {
    } else {
      PoolJobsAreDistinct(groups[..|groups| - 1]);
    }
  }

  /** The pools are maintained in the order of their groups, each group's at most once. */
  lemma {:induction false} PoolJobsInOrder(groups: seq<GroupRule>) returns (at: seq<nat>)
    ensures |at| == |PoolJobs(groups)|
    ensures forall i | 0 <= i < |at| :: at[i] < |groups| && groups[at[i]] == PoolJobs(groups)[i]
    ensures forall i, j | 0 <= i < j < |at| :: at[i] < at[j]
  {
    hide HasCooldown;
    at := [];
    if groups == [] {
    } else {
      var n := |groups| - 1;
      at := PoolJobsInOrder(groups[..n]);
      if groups[n].enabled && HasCooldown(groups[n].rules.duration) && groups[n].sharedPool {
        at := at + [n];
      }
    }
  }

  lemma {:induction false} OtherPools(uidOf: map<string, Uid>, m: Meters, jobs: seq<GroupRule>, id: string, now: nat)
    requires forall g | g in jobs :: g.id != id
    ensures var e := RunPoolJobs(uidOf, m, jobs, now).groupCooldownUntil;
      (id in e <==> id in m.groupCooldownUntil) && (id in e ==> e[id] == m.groupCooldownUntil[id])
  {
    if jobs == [] {
    } else {
      var rest, g := jobs[..|jobs| - 1], jobs[|jobs| - 1];
      assert g in jobs && forall x | x in rest :: x in jobs;
      OtherPools(uidOf, m, rest, id, now);
      PoolLeavesOthers(uidOf, RunPoolJobs(uidOf, m, rest, now), g, id, now);
    }
  }

  lemma PoolLeavesOthers(uidOf: map<string, Uid>, m: Meters, g: GroupRule, id: string, now: nat)
    requires g.id != id
    ensures var e := MaintainGroup(uidOf, m, g, now).groupCooldownUntil;
      (id in e <==> id in m.groupCooldownUntil) && (id in e ==> e[id] == m.groupCooldownUntil[id])
  {
    ZeroMembersSpec(uidOf, m.(groupCooldownUntil := m.groupCooldownUntil - {g.id}), g.members);
    hide ZeroMembers, PooledUsage, Resolves;
  }

  /** The pool is not cooling down and none of its members has any usage. */
  ghost predicate FreshPool(uidOf: map<string, Uid>, m: Meters, g: GroupRule) {
    g.id !in m.groupCooldownUntil && forall u | Resolves(uidOf, g.members, u) :: NoUsage(m, u)
  }

  lemma PoolEnds(uidOf: map<string, Uid>, m: Meters, g: GroupRule, now: nat)
    requires HasCooldown(g.rules.duration) && RunOut(m.groupCooldownUntil, g.id, now)
    ensures FreshPool(uidOf, MaintainGroup(uidOf, m, g, now), g)
  {
    var m1 := m.(groupCooldownUntil := m.groupCooldownUntil - {g.id});
    ZeroMembersSpec(uidOf, m1, g.members);
    PoolOfZeroedMembers(uidOf, ZeroMembers(uidOf, m1, g.members), g.members, g.rules.duration.scope);
    hide ZeroMembers, PooledUsage, Resolves;
  }

  lemma {:induction false} PoolJobsEnd(uidOf: map<string, Uid>, m: Meters, jobs: seq<GroupRule>, g: GroupRule, now: nat)
    requires DistinctIds(jobs) && g in jobs && HasCooldown(g.rules.duration)
    requires RunOut(m.groupCooldownUntil, g.id, now)
    ensures FreshPool(uidOf, RunPoolJobs(uidOf, m, jobs, now), g)
  {
    hide MaintainGroup, Resolves;
    var rest, last := jobs[..|jobs| - 1], jobs[|jobs| - 1];
    var before := RunPoolJobs(uidOf, m, rest, now);
    if last == g {
      OtherPools(uidOf, m, rest, g.id, now);
      PoolEnds(uidOf, before, g, now);
    } else {
      PoolJobsEnd(uidOf, m, rest, g, now);
      var k :| 0 <= k < |jobs| && jobs[k] == g;
      PoolLeavesOthers(uidOf, before, last, g.id, now);
      MaintainGroupSettles(uidOf, before, last, now);
    }
  }

  /** The tick that finds a pool's cooldown expired ends it, zeroes all its members and starts no other. */
  lemma PoolCooldownEnds(c: Core, g: GroupRule, t: Tick)
    requires NoReset(c, t.now) && DistinctIds(c.cfg.rules.groups)
    requires g in PoolJobs(c.cfg.rules.groups) && RunOut(c.meters.groupCooldownUntil, g.id, t.now)
    ensures FreshPool(c.cfg.uidOf, Next(c, t).meters, g)
  {
    hide RunUidJobs, RunPoolJobs, UidJobs, Accumulate, RunOut, FreshPool, DistinctIds;
    var elapsed := Elapsed(c.lastTick, t.now);
    var used := Accumulate(c.cfg, c.meters, elapsed, t.sample);
    AccumulateKeepsDeadlines(c.cfg, c.meters, elapsed, t.sample);
    UidJobsKeepDeadlines(used, UidJobs(c.cfg), t.now);
    PoolJobsAreDistinct(c.cfg.rules.groups);
    PoolJobsEnd(c.cfg.uidOf, RunUidJobs(used, UidJobs(c.cfg), t.now), PoolJobs(c.cfg.rules.groups), g, t.now);
  }
}
