/** When cooldowns start, for every uid and every pool, and that each start is paid for with usage. */
module Starts {
  import opened Rules
  import opened EngineState
  import opened Cooldowns
  import opened Usage

  // ---------- the start of a cooldown ----------

  /** The usage that the job counts has reached its limit. */
  predicate Reaches(m: Meters, j: UidJob) {
    ScopedUsage(m, j.uid, j.d.scope) >= 60 * j.d.limitMinutes
  }

  predicate SomeReaches(m: Meters, jobs: seq<UidJob>, u: Uid) {
    exists j | j in jobs :: j.uid == u && Reaches(m, j)
  }

  /** The deadline is the one that a job which reaches its limit sets now. */
  predicate SetNow(m: Meters, jobs: seq<UidJob>, u: Uid, until: nat, now: nat) {
    exists j | j in jobs :: j.uid == u && Reaches(m, j) && until == now + 60 * j.d.freezeMinutes
  }

  lemma {:induction false} UidJobsStart(m: Meters, jobs: seq<UidJob>, u: Uid, now: nat)
    requires AllCool(jobs) && u !in m.cooldownUntil
    ensures var e := RunUidJobs(m, jobs, now);
      && SameUsage(m, e, u)
      && (u in e.cooldownUntil <==> SomeReaches(m, jobs, u))
      && (u in e.cooldownUntil ==> now < e.cooldownUntil[u] && SetNow(m, jobs, u, e.cooldownUntil[u], now))
  {
    if jobs == [] {
    } else {
      var rest, j := jobs[..|jobs| - 1], jobs[|jobs| - 1];
      assert j in jobs && forall x :: x in jobs <==> x in rest || x == j;
      UidJobsStart(m, rest, u, now);
      UidJobStarts(RunUidJobs(m, rest, now), j, u, now);
      assert SomeReaches(m, jobs, u) == (SomeReaches(m, rest, u) || (j.uid == u && Reaches(m, j)));
    }
  }

  lemma UidJobStarts(m: Meters, j: UidJob, u: Uid, now: nat)
    requires HasCooldown(j.d) && (u in m.cooldownUntil ==> now < m.cooldownUntil[u])
    ensures var e := MaintainUid(m, j.uid, j.d, now);
      && SameUsage(m, e, u)
      && (u in m.cooldownUntil ==> u in e.cooldownUntil && e.cooldownUntil[u] == m.cooldownUntil[u])
      && (u !in m.cooldownUntil ==>
            if u == j.uid && Reaches(m, j)
            then u in e.cooldownUntil && e.cooldownUntil[u] == now + 60 * j.d.freezeMinutes
            else u !in e.cooldownUntil)
  {}

  /** The counters with this tick's time. */
  function Counting(c: Core, t: Tick): Meters {
    Accumulate(c.cfg, c.meters, Elapsed(c.lastTick, t.now), t.sample)
  }

  /** A uid's cooldown starts exactly when the usage, this tick included, has reached the limit of one of
      its rules, and its deadline is that rule's time after this tick. Under one rule and no pool the whole
      meter is determined. */
  lemma CooldownStarts(c: Core, u: Uid, t: Tick)
    requires NoReset(c, t.now) && u !in c.meters.cooldownUntil
    ensures var e, used, jobs := Next(c, t).meters, Counting(c, t), UidJobs(c.cfg);
      && (u in e.cooldownUntil <==> SomeReaches(used, jobs, u))
      && (u in e.cooldownUntil ==> SetNow(used, jobs, u, e.cooldownUntil[u], t.now))
    ensures forall d | OneRule(c.cfg, u, d) :: var used := Sampled(c, u, t);
      MeterOf(Next(c, t).meters, u) ==
        if Used(used, d) < 60 * d.limitMinutes then used else used.(until := Some(t.now + 60 * d.freezeMinutes))
  {
    hide RunUidJobs, RunPoolJobs, AppJobs, GroupMemberJobs, PoolJobs, Accumulate, OneRule, SomeReaches, SetNow;
    var used := Counting(c, t);
    AccumulateKeepsDeadlines(c.cfg, c.meters, Elapsed(c.lastTick, t.now), t.sample);
    AppJobsCool(c.cfg.uidOf, c.cfg.rules.apps);
    GroupJobsCool(c.cfg.uidOf, c.cfg.rules.groups);
    UidJobsStart(used, UidJobs(c.cfg), u, t.now);
    PoolJobsKeepDeadlines(c.cfg.uidOf, RunUidJobs(used, UidJobs(c.cfg), t.now), PoolJobs(c.cfg.rules.groups), t.now);
    forall d | OneRule(c.cfg, u, d)
      ensures var used := Sampled(c, u, t);
        MeterOf(Next(c, t).meters, u) ==
          if Used(used, d) < 60 * d.limitMinutes then used else used.(until := Some(t.now + 60 * d.freezeMinutes))
    {
      TickOnMeter(c, u, d, t);
    }
  }

  // ---------- which rule's cooldown it is ----------

  /** The app rule about the uid has a cooldown and its limit is reached. */
  predicate AppStarts(uidOf: map<string, Uid>, m: Meters, a: AppRule, u: Uid) {
    var d := a.rules.duration;
    && a.enabled && d.limitMinutes > 0 && d.freezeMinutes > 0
    && a.key in uidOf && uidOf[a.key] == u
    && ScopedUsage(m, u, d.scope) >= 60 * d.limitMinutes
  }

  /** The group with the uid in it has a cooldown per uid and its limit is reached. */
  predicate GroupStarts(uidOf: map<string, Uid>, m: Meters, g: GroupRule, u: Uid) {
    var d := g.rules.duration;
    && g.enabled && d.limitMinutes > 0 && d.freezeMinutes > 0 && !g.sharedPool
    && Resolves(uidOf, g.members, u)
    && ScopedUsage(m, u, d.scope) >= 60 * d.limitMinutes
  }

  ghost predicate FirstApp(uidOf: map<string, Uid>, m: Meters, apps: seq<AppRule>, u: Uid, k: nat) {
    k < |apps| && AppStarts(uidOf, m, apps[k], u) && forall j | 0 <= j < k :: !AppStarts(uidOf, m, apps[j], u)
  }

  ghost predicate FirstGroup(uidOf: map<string, Uid>, m: Meters, groups: seq<GroupRule>, u: Uid, k: nat) {
    k < |groups| && GroupStarts(uidOf, m, groups[k], u) && forall j | 0 <= j < k :: !GroupStarts(uidOf, m, groups[j], u)
  }

  /** The rule of the first job of the uid that reaches its limit. */
  function FirstReach(m: Meters, jobs: seq<UidJob>, u: Uid): Option<DurationRule> {
    if jobs == [] then None
    else
      var before, j := FirstReach(m, jobs[..|jobs| - 1], u), jobs[|jobs| - 1];
      if before.Some? then before else if j.uid == u && Reaches(m, j) then Some(j.d) else None
  }

  lemma {:induction false} FirstReachSplit(m: Meters, jobs: seq<UidJob>, more: seq<UidJob>, u: Uid)
    ensures FirstReach(m, jobs + more, u) ==
      if FirstReach(m, jobs, u).Some? then FirstReach(m, jobs, u) else FirstReach(m, more, u)
  {
    hide Reaches;
    if more == [] {
      assert jobs + more == jobs;
    } else {
      var n := |more| - 1;
      assert (jobs + more)[..|jobs| + n] == jobs + more[..n];
      FirstReachSplit(m, jobs, more[..n], u);
    }
  }

  lemma {:induction false} UidJobsFirst(m: Meters, jobs: seq<UidJob>, u: Uid, now: nat)
    requires AllCool(jobs) && u !in m.cooldownUntil
    ensures var e, d := RunUidJobs(m, jobs, now).cooldownUntil, FirstReach(m, jobs, u);
      (u in e <==> d.Some?) && (u in e ==> e[u] == now + 60 * d.value.freezeMinutes)
  {
    hide MaintainUid, Reaches;
    if jobs == [] {
    } else {
      var rest, j := jobs[..|jobs| - 1], jobs[|jobs| - 1];
      assert j in jobs && forall x | x in rest :: x in jobs;
      UidJobsFirst(m, rest, u, now);
      UidJobsStart(m, rest, u, now);
      SameReach(m, RunUidJobs(m, rest, now), j, u);
      UidJobStarts(RunUidJobs(m, rest, now), j, u, now);
    }
  }

  lemma SameReach(m: Meters, e: Meters, j: UidJob, u: Uid)
    requires SameUsage(m, e, u)
    ensures j.uid == u ==> Reaches(m, j) == Reaches(e, j)
  {}

  /** The rule is that of the first app whose cooldown starts; none starts without one. */
  ghost predicate FirstAppIs(uidOf: map<string, Uid>, m: Meters, apps: seq<AppRule>, u: Uid, d: Option<DurationRule>) {
    match d
    case Some(d) => exists k: nat :: FirstApp(uidOf, m, apps, u, k) && apps[k].rules.duration == d
    case None => forall a | a in apps :: !AppStarts(uidOf, m, a, u)
  }

  lemma OneMoreApp(uidOf: map<string, Uid>, m: Meters, apps: seq<AppRule>, a: AppRule, u: Uid, d: Option<DurationRule>)
    requires FirstAppIs(uidOf, m, apps, u, d)
    ensures FirstAppIs(uidOf, m, apps + [a], u,
      if d.None? && AppStarts(uidOf, m, a, u) then Some(a.rules.duration) else d)
  {
    hide AppStarts;
    if d.Some? {
      var k: nat :| FirstApp(uidOf, m, apps, u, k) && apps[k].rules.duration == d.value;
      assert FirstApp(uidOf, m, apps + [a], u, k);
    } else if AppStarts(uidOf, m, a, u) {
      assert FirstApp(uidOf, m, apps + [a], u, |apps|);
    }
  }

  lemma {:induction false} AppJobsFirst(uidOf: map<string, Uid>, m: Meters, apps: seq<AppRule>, u: Uid)
    ensures FirstAppIs(uidOf, m, apps, u, FirstReach(m, AppJobs(uidOf, apps), u))
  {
    hide AppStarts, FirstReach;
    if apps == [] {
      NothingReaches(m, u);
    } else {
      var n := |apps| - 1;
      var a, before := apps[n], AppJobs(uidOf, apps[..n]);
      AppJobsFirst(uidOf, m, apps[..n], u);
      AppJobFirst(uidOf, m, a, u);
      OneMoreApp(uidOf, m, apps[..n], a, u, FirstReach(m, before, u));
      hide FirstAppIs;
      FirstReachSplit(m, before, [UidJob(if a.key in uidOf then uidOf[a.key] else 0, a.rules.duration)], u);
      assert apps == apps[..n] + [a];
    }
  }

  lemma NothingReaches(m: Meters, u: Uid)
    ensures FirstReach(m, [], u) == None
  {}

  lemma AppJobFirst(uidOf: map<string, Uid>, m: Meters, a: AppRule, u: Uid)
    ensures AppStarts(uidOf, m, a, u) <==>
      && a.enabled && HasCooldown(a.rules.duration) && a.key in uidOf
      && FirstReach(m, [UidJob(uidOf[a.key], a.rules.duration)], u).Some?
    ensures a.key in uidOf ==>
      var d := FirstReach(m, [UidJob(uidOf[a.key], a.rules.duration)], u); d.Some? ==> d.value == a.rules.duration
  {
    var jobs := [UidJob(if a.key in uidOf then uidOf[a.key] else 0, a.rules.duration)];
    assert FirstReach(m, jobs[..0], u) == None;
  }

  lemma {:induction false} MemberJobsFirst(uidOf: map<string, Uid>, m: Meters, d: DurationRule, members: seq<string>,
                                           u: Uid)
    ensures FirstReach(m, MemberJobs(uidOf, d, members), u) ==
      if Resolves(uidOf, members, u) && ScopedUsage(m, u, d.scope) >= 60 * d.limitMinutes then Some(d) else None
  {
    hide ScopedUsage;
    if members == [] {
    } else {
      var n := |members| - 1;
      var rest := MemberJobs(uidOf, d, members[..n]);
      MemberJobsFirst(uidOf, m, d, members[..n], u);
      assert forall x :: x in members <==> x in members[..n] || x == members[n];
      assert Resolves(uidOf, members, u) ==
        (Resolves(uidOf, members[..n], u) || (members[n] in uidOf && uidOf[members[n]] == u));
      if members[n] in uidOf {
        assert (rest + [UidJob(uidOf[members[n]], d)])[..|rest|] == rest;
      }
    }
  }

  ghost predicate FirstGroupIs(uidOf: map<string, Uid>, m: Meters, groups: seq<GroupRule>, u: Uid,
                               d: Option<DurationRule>)
  {
    match d
    case Some(d) => exists k: nat :: FirstGroup(uidOf, m, groups, u, k) && groups[k].rules.duration == d
    case None => forall g | g in groups :: !GroupStarts(uidOf, m, g, u)
  }

  lemma OneMoreGroup(uidOf: map<string, Uid>, m: Meters, groups: seq<GroupRule>, g: GroupRule, u: Uid,
                     d: Option<DurationRule>)
    requires FirstGroupIs(uidOf, m, groups, u, d)
    ensures FirstGroupIs(uidOf, m, groups + [g], u,
      if d.None? && GroupStarts(uidOf, m, g, u) then Some(g.rules.duration) else d)
  {
    hide GroupStarts;
    if d.Some? {
      var k: nat :| FirstGroup(uidOf, m, groups, u, k) && groups[k].rules.duration == d.value;
      assert FirstGroup(uidOf, m, groups + [g], u, k);
    } else if GroupStarts(uidOf, m, g, u) {
      assert FirstGroup(uidOf, m, groups + [g], u, |groups|);
    }
  }

  lemma {:induction false} GroupJobsFirst(uidOf: map<string, Uid>, m: Meters, groups: seq<GroupRule>, u: Uid)
    ensures FirstGroupIs(uidOf, m, groups, u, FirstReach(m, GroupMemberJobs(uidOf, groups), u))
  {
    hide GroupStarts, MemberJobs, FirstReach;
    if groups == [] {
      NothingReaches(m, u);
    } else {
      var n := |groups| - 1;
      var g, before := groups[n], GroupMemberJobs(uidOf, groups[..n]);
      GroupJobsFirst(uidOf, m, groups[..n], u);
      GroupJobFirst(uidOf, m, g, u);
      OneMoreGroup(uidOf, m, groups[..n], g, u, FirstReach(m, before, u));
      hide FirstGroupIs;
      FirstReachSplit(m, before, MemberJobs(uidOf, g.rules.duration, g.members), u);
      assert groups == groups[..n] + [g];
    }
  }

  lemma GroupJobFirst(uidOf: map<string, Uid>, m: Meters, g: GroupRule, u: Uid)
    ensures var d := FirstReach(m, MemberJobs(uidOf, g.rules.duration, g.members), u);
      && (GroupStarts(uidOf, m, g, u) <==>
          g.enabled && HasCooldown(g.rules.duration) && !g.sharedPool && d.Some?)
      && (d.Some? ==> d.value == g.rules.duration)
  {
    hide MemberJobs, FirstReach, Resolves;
    MemberJobsFirst(uidOf, m, g.rules.duration, g.members, u);
  }

  /** Which rule sets the deadline when several reach their limits at once: the first app rule in key order,
      else the first group that does not pool; and with neither no cooldown starts. */
  lemma FirstRuleSetsDeadline(c: Core, u: Uid, t: Tick)
    requires NoReset(c, t.now) && u !in c.meters.cooldownUntil
    ensures var e, used, rules := Next(c, t).meters.cooldownUntil, Counting(c, t), c.cfg.rules;
      var noApp := forall a | a in rules.apps :: !AppStarts(c.cfg.uidOf, used, a, u);
      && (forall k: nat | FirstApp(c.cfg.uidOf, used, rules.apps, u, k) ::
            u in e && e[u] == t.now + 60 * rules.apps[k].rules.duration.freezeMinutes)
      && (forall k: nat | noApp && FirstGroup(c.cfg.uidOf, used, rules.groups, u, k) ::
            u in e && e[u] == t.now + 60 * rules.groups[k].rules.duration.freezeMinutes)
      && (noApp && (forall g | g in rules.groups :: !GroupStarts(c.cfg.uidOf, used, g, u)) ==> u !in e)
  {
    hide RunUidJobs, RunPoolJobs, AppJobs, GroupMemberJobs, PoolJobs, Accumulate, FirstReach, AppStarts, GroupStarts;
    var used, rules := Counting(c, t), c.cfg.rules;
    var apps, groups := AppJobs(c.cfg.uidOf, rules.apps), GroupMemberJobs(c.cfg.uidOf, rules.groups);
    AccumulateKeepsDeadlines(c.cfg, c.meters, Elapsed(c.lastTick, t.now), t.sample);
    AppJobsCool(c.cfg.uidOf, rules.apps);
    GroupJobsCool(c.cfg.uidOf, rules.groups);
    UidJobsFirst(used, UidJobs(c.cfg), u, t.now);
    PoolJobsKeepDeadlines(c.cfg.uidOf, RunUidJobs(used, UidJobs(c.cfg), t.now), PoolJobs(rules.groups), t.now);
    FirstReachSplit(used, apps, groups, u);
    AppJobsFirst(c.cfg.uidOf, used, rules.apps, u);
    GroupJobsFirst(c.cfg.uidOf, used, rules.groups, u);
    forall k: nat | FirstApp(c.cfg.uidOf, used, rules.apps, u, k) ensures rules.apps[k] in rules.apps {}
    forall k: nat | FirstGroup(c.cfg.uidOf, used, rules.groups, u, k) ensures rules.groups[k] in rules.groups {}
  }

  /** The same usage of the members is the same usage of the pool. */
  lemma {:induction false} SameMembersSamePool(uidOf: map<string, Uid>, m: Meters, e: Meters,
                                               members: seq<string>, scope: string)
    requires forall u | Resolves(uidOf, members, u) :: SameUsage(m, e, u)
    ensures PooledUsage(uidOf, m, members, scope) == PooledUsage(uidOf, e, members, scope)
  {
    if members == [] {
    } else {
      var rest, key := members[..|members| - 1], members[|members| - 1];
      assert key in members && forall x | x in rest :: x in members;
      forall u | Resolves(uidOf, rest, u) ensures SameUsage(m, e, u) {
        assert Resolves(uidOf, members, u);
      }
      assert key in uidOf ==> Resolves(uidOf, members, uidOf[key]);
      SameMembersSamePool(uidOf, m, e, rest, scope);
    }
  }

  /** What a pool's job leaves when the pool was not cooling down. */
  ghost predicate PoolDecided(uidOf: map<string, Uid>, m: Meters, e: Meters, g: GroupRule, now: nat) {
    && (forall u | Resolves(uidOf, g.members, u) :: SameUsage(m, e, u))
    && (g.id in e.groupCooldownUntil <==>
        PooledUsage(uidOf, m, g.members, g.rules.duration.scope) >= 60 * g.rules.duration.limitMinutes)
    && (g.id in e.groupCooldownUntil ==> e.groupCooldownUntil[g.id] == now + 60 * g.rules.duration.freezeMinutes)
  }

  /** No cooldown of another pool that shares a member ends now. */
  ghost predicate MembersKept(uidOf: map<string, Uid>, m: Meters, jobs: seq<GroupRule>, g: GroupRule, now: nat) {
    forall u | Resolves(uidOf, g.members, u) :: NoPoolRunsOut(uidOf, m, jobs, u, now)
  }

  lemma PoolsKeepMembers(uidOf: map<string, Uid>, m: Meters, jobs: seq<GroupRule>, g: GroupRule, now: nat)
    requires MembersKept(uidOf, m, jobs, g, now) && forall h | h in jobs :: h.rules.duration.freezeMinutes > 0
    ensures var e := RunPoolJobs(uidOf, m, jobs, now);
      && (forall u | Resolves(uidOf, g.members, u) :: SameUsage(m, e, u))
      && (forall u | Resolves(uidOf, g.members, u) ::
            forall id | RunOut(e.groupCooldownUntil, id, now) :: RunOut(m.groupCooldownUntil, id, now))
  {
    hide RunPoolJobs, RunOut, Resolves, SameUsage, NoPoolRunsOut;
    forall u | Resolves(uidOf, g.members, u)
      ensures SameUsage(m, RunPoolJobs(uidOf, m, jobs, now), u)
      ensures forall id | RunOut(RunPoolJobs(uidOf, m, jobs, now).groupCooldownUntil, id, now) ::
        RunOut(m.groupCooldownUntil, id, now)
    {
      PoolJobsKeepUsage(uidOf, m, jobs, u, now);
    }
  }

  lemma {:induction false} PoolJobsStart(uidOf: map<string, Uid>, m: Meters, jobs: seq<GroupRule>, g: GroupRule,
                                         now: nat)
    requires DistinctIds(jobs) && g in jobs && g.id !in m.groupCooldownUntil
    requires forall h | h in jobs :: HasCooldown(h.rules.duration)
    requires MembersKept(uidOf, m, jobs, g, now)
    ensures PoolDecided(uidOf, m, RunPoolJobs(uidOf, m, jobs, now), g, now)
  {
    hide MaintainGroup, Resolves, PooledUsage, RunOut, SameUsage;
    var rest, last := jobs[..|jobs| - 1], jobs[|jobs| - 1];
    var before := RunPoolJobs(uidOf, m, rest, now);
    assert forall h | h in rest :: h in jobs;
    PoolsKeepMembers(uidOf, m, rest, g, now);
    if last == g {
      OtherPools(uidOf, m, rest, g.id, now);
      SameMembersSamePool(uidOf, m, before, g.members, g.rules.duration.scope);
      PoolStarts(uidOf, before, g, now);
      SameTwice(uidOf, m, before, MaintainGroup(uidOf, before, g, now), g.members);
    } else {
      PoolJobsStart(uidOf, m, rest, g, now);
      var k :| 0 <= k < |jobs| && jobs[k] == g;
      PoolLeavesOthers(uidOf, before, last, g.id, now);
      PoolsKeepMembers(uidOf, m, jobs, g, now);
    }
  }

  lemma SameTwice(uidOf: map<string, Uid>, m: Meters, mid: Meters, e: Meters, members: seq<string>)
    requires forall u | Resolves(uidOf, members, u) :: SameUsage(m, mid, u)
    requires forall u | Resolves(uidOf, members, u) :: SameUsage(mid, e, u)
    ensures forall u | Resolves(uidOf, members, u) :: SameUsage(m, e, u)
  {
    hide Resolves;
  }

  lemma PoolStarts(uidOf: map<string, Uid>, m: Meters, g: GroupRule, now: nat)
    requires g.id !in m.groupCooldownUntil
    ensures PoolDecided(uidOf, m, MaintainGroup(uidOf, m, g, now), g, now)
  {
    hide ZeroMembers, Resolves, PooledUsage;
  }

  /** The pool's own job decides, on what the jobs before it left; later pools do not interfere. */
  lemma {:induction false} PoolJobDecides(uidOf: map<string, Uid>, m: Meters, jobs: seq<GroupRule>, k: nat, now: nat)
    requires DistinctIds(jobs) && k < |jobs| && jobs[k].id !in m.groupCooldownUntil
    ensures StartedOn(uidOf, RunPoolJobs(uidOf, m, jobs[..k], now), RunPoolJobs(uidOf, m, jobs, now), jobs[k], now)
  {
    hide MaintainGroup, PooledUsage;
    var n := |jobs| - 1;
    var rest, g := jobs[..n], jobs[k];
    if k == n {
      OtherPools(uidOf, m, rest, g.id, now);
      PoolStarts(uidOf, RunPoolJobs(uidOf, m, rest, now), g, now);
    } else {
      PoolJobDecides(uidOf, m, rest, k, now);
      assert rest[..k] == jobs[..k];
      PoolLeavesOthers(uidOf, RunPoolJobs(uidOf, m, rest, now), jobs[n], g.id, now);
    }
  }

  /** The pool cools down from now exactly when the given usage reaches its limit. */
  predicate StartedOn(uidOf: map<string, Uid>, base: Meters, e: Meters, g: GroupRule, now: nat) {
    && (g.id in e.groupCooldownUntil <==>
        PooledUsage(uidOf, base, g.members, g.rules.duration.scope) >= 60 * g.rules.duration.limitMinutes)
    && (g.id in e.groupCooldownUntil ==> e.groupCooldownUntil[g.id] == now + 60 * g.rules.duration.freezeMinutes)
  }

  /** A pool's cooldown starts exactly when the pooled usage has reached the limit, with the configured
      length. What counts is the usage including this tick that the per-uid jobs and the pools before it
      in key order leave. Unless another cooldown of a member ends at this tick, that is simply the usage
      including this tick, and the members keep it. */
  lemma PoolCooldownStarts(c: Core, k: nat, t: Tick)
    requires NoReset(c, t.now) && DistinctIds(c.cfg.rules.groups) && k < |PoolJobs(c.cfg.rules.groups)|
    requires PoolJobs(c.cfg.rules.groups)[k].id !in c.meters.groupCooldownUntil
    ensures var uidOf, pools := c.cfg.uidOf, PoolJobs(c.cfg.rules.groups);
      var base := RunPoolJobs(uidOf, RunUidJobs(Counting(c, t), UidJobs(c.cfg), t.now), pools[..k], t.now);
      StartedOn(uidOf, base, Next(c, t).meters, pools[k], t.now)
    ensures var uidOf, g := c.cfg.uidOf, PoolJobs(c.cfg.rules.groups)[k];
      (forall u | Resolves(uidOf, g.members, u) :: !Expired(c.cfg, c.meters, u, t.now)) ==>
        PoolDecided(uidOf, Counting(c, t), Next(c, t).meters, g, t.now)
  {
    hide RunUidJobs, RunPoolJobs, UidJobs, PooledUsage, Accumulate, DistinctIds, Resolves, Expired, StartedOn;
    var uidOf, used, pools := c.cfg.uidOf, Counting(c, t), PoolJobs(c.cfg.rules.groups);
    AccumulateKeepsDeadlines(c.cfg, c.meters, Elapsed(c.lastTick, t.now), t.sample);
    UidJobsKeepDeadlines(used, UidJobs(c.cfg), t.now);
    PoolJobsAreDistinct(c.cfg.rules.groups);
    PoolJobDecides(uidOf, RunUidJobs(used, UidJobs(c.cfg), t.now), pools, k, t.now);
    if forall u | Resolves(uidOf, pools[k].members, u) :: !Expired(c.cfg, c.meters, u, t.now) {
      UndisturbedPoolStarts(c, pools[k], t);
    }
  }

  lemma UndisturbedPoolStarts(c: Core, g: GroupRule, t: Tick)
    requires NoReset(c, t.now) && DistinctIds(c.cfg.rules.groups)
    requires g in PoolJobs(c.cfg.rules.groups) && g.id !in c.meters.groupCooldownUntil
    requires forall u | Resolves(c.cfg.uidOf, g.members, u) :: !Expired(c.cfg, c.meters, u, t.now)
    ensures PoolDecided(c.cfg.uidOf, Counting(c, t), Next(c, t).meters, g, t.now)
  {
    hide RunUidJobs, RunPoolJobs, AppJobs, GroupMemberJobs, PooledUsage, Accumulate;
    hide DistinctIds, Resolves, RunOut, Mentions;
    var uidOf, used, jobs := c.cfg.uidOf, Counting(c, t), PoolJobs(c.cfg.rules.groups);
    AccumulateKeepsDeadlines(c.cfg, c.meters, Elapsed(c.lastTick, t.now), t.sample);
    AppJobsCool(uidOf, c.cfg.rules.apps);
    GroupJobsCool(uidOf, c.cfg.rules.groups);
    UidJobsKeepDeadlines(used, UidJobs(c.cfg), t.now);
    var mid := RunUidJobs(used, UidJobs(c.cfg), t.now);
    forall u | Resolves(uidOf, g.members, u) ensures SameUsage(used, mid, u) {
      UidJobsKeepUsage(used, UidJobs(c.cfg), u, t.now);
    }
    PoolJobsAreDistinct(c.cfg.rules.groups);
    PoolJobsStart(uidOf, mid, jobs, g, t.now);
    SameMembersSamePool(uidOf, used, mid, g.members, g.rules.duration.scope);
    SameTwice(uidOf, used, mid, Next(c, t).meters, g.members);
  }

  // ---------- midnight ----------

  /** Everything that cools down was started by this tick out of the given usage. */
  ghost predicate OnlyStartedNow(cfg: Config, m: Meters, e: Meters, now: nat) {
    && (forall u :: SameUsage(m, e, u))
    && (forall u :: u in e.cooldownUntil <==> SomeReaches(m, UidJobs(cfg), u))
    && (forall u | u in e.cooldownUntil :: SetNow(m, UidJobs(cfg), u, e.cooldownUntil[u], now))
    && (forall g | g in PoolJobs(cfg.rules.groups) :: PoolDecided(cfg.uidOf, m, e, g, now))
    && (forall id | id in e.groupCooldownUntil :: exists g | g in PoolJobs(cfg.rules.groups) :: g.id == id)
  }

  /** The tick on a later date ends every cooldown, of uids and of pools, forgets all earlier usage and
      clears the budget: counters hold this tick's time only, and only that can start a cooldown. */
  lemma MidnightEndsCooldowns(c: Core, t: Tick)
    requires !NoReset(c, t.now) && DistinctIds(c.cfg.rules.groups)
    ensures var today, e := Counting(c.(meters := EMPTY_METERS), t), Next(c, t);
      && (forall u :: Get(today.usageAny, u) == AnyAdd(c, u, t) && Get(today.usageFg, u) == FgAdd(c, u, t))
      && OnlyStartedNow(c.cfg, today, e.meters, t.now)
      && e.budget == EMPTY_BUDGET
    ensures forall u, d | OneRule(c.cfg, u, d) ::
      MeterOf(Next(c, t).meters, u) == StepMeter(Sampled(c.(meters := EMPTY_METERS), u, t), d, t.now)
  {
    hide Maintain, Accumulate, OneRule, StepMeter, SomeReaches, SetNow, PoolDecided, AnyAdd, FgAdd;
    hide UidJobs, PoolJobs, DistinctIds, Resolves;
    var c1 := DailyReset(c, t.now);
    var today := Counting(c.(meters := EMPTY_METERS), t);
    SameAdds(c, t);
    AccumulateKeepsDeadlines(c.cfg, EMPTY_METERS, Elapsed(c.lastTick, t.now), t.sample);
    assert Next(c1, t) == Next(c, t) && Counting(c1, t) == today;
    forall u
      ensures SameUsage(today, Next(c, t).meters, u)
      ensures Get(today.usageAny, u) == AnyAdd(c, u, t) && Get(today.usageFg, u) == FgAdd(c, u, t)
      ensures u in Next(c, t).meters.cooldownUntil <==> SomeReaches(today, UidJobs(c.cfg), u)
      ensures u in Next(c, t).meters.cooldownUntil ==>
        SetNow(today, UidJobs(c.cfg), u, Next(c, t).meters.cooldownUntil[u], t.now)
    {
      AccumulateOnMeter(c1, u, t);
      CooldownStarts(c1, u, t);
      MaintainKeepsUsage(c.cfg, today, u, t.now);
    }
    forall g | g in PoolJobs(c.cfg.rules.groups)
      ensures PoolDecided(c.cfg.uidOf, today, Next(c, t).meters, g, t.now)
    {
      var k :| 0 <= k < |PoolJobs(c.cfg.rules.groups)| && PoolJobs(c.cfg.rules.groups)[k] == g;
      PoolCooldownStarts(c1, k, t);
    }
    NoOtherPools(c.cfg, today, t.now);
    forall u, d | OneRule(c.cfg, u, d)
      ensures MeterOf(Next(c, t).meters, u) == StepMeter(Sampled(c.(meters := EMPTY_METERS), u, t), d, t.now)
    {
      TickOnMeter(c1, u, d, t);
    }
  }

  lemma SameAdds(c: Core, t: Tick)
    requires !NoReset(c, t.now)
    ensures forall u :: Sampled(DailyReset(c, t.now), u, t) == Sampled(c.(meters := EMPTY_METERS), u, t)
    ensures var c1 := DailyReset(c, t.now);
      && (forall u :: AnyAdd(c1, u, t) == AnyAdd(c, u, t) && FgAdd(c1, u, t) == FgAdd(c, u, t))
      && c1.cfg == c.cfg && c1.lastTick == c.lastTick
  {}

  lemma NoOtherPools(cfg: Config, m: Meters, now: nat)
    requires m.groupCooldownUntil == map[]
    ensures forall id | id in Maintain(cfg, m, now).groupCooldownUntil ::
      exists g | g in PoolJobs(cfg.rules.groups) :: g.id == id
  {
    hide RunUidJobs, RunPoolJobs, UidJobs, PoolJobs;
    UidJobsKeepDeadlines(m, UidJobs(cfg), now);
    var mid, jobs := RunUidJobs(m, UidJobs(cfg), now), PoolJobs(cfg.rules.groups);
    forall id | id in Maintain(cfg, m, now).groupCooldownUntil ensures exists g | g in jobs :: g.id == id {
      if forall g | g in jobs :: g.id != id {
        OtherPools(cfg.uidOf, mid, jobs, id, now);
      }
    }
  }

  // ---------- every start is paid for ----------

  /** What cools down: a uid, or a shared pool. */
  datatype Cooler = OneUid(uid: Uid) | Pool(group: GroupRule)

  function CoolsTill(m: Meters, who: Cooler): Option<nat> {
    match who
    case OneUid(u) => if u in m.cooldownUntil then Some(m.cooldownUntil[u]) else None
    case Pool(g) => if g.id in m.groupCooldownUntil then Some(m.groupCooldownUntil[g.id]) else None
  }

  /** The scopes that draw on the running time; the others draw on the foreground time. */
  predicate CountsRunning(scope: string) { scope == "any" || scope == "background" }

  function Side(m: Meters, u: Uid, running: bool): nat {
    if running then Get(m.usageAny, u) else Get(m.usageFg, u)
  }

  function PooledSide(uidOf: map<string, Uid>, m: Meters, members: seq<string>, running: bool): nat {
    if members == [] then 0
    else
      var rest, key := members[..|members| - 1], members[|members| - 1];
      PooledSide(uidOf, m, rest, running) + (if key in uidOf then Side(m, uidOf[key], running) else 0)
  }

  /** The counter that the rule draws on, summed over the member entries of a pool. */
  function Counted(uidOf: map<string, Uid>, m: Meters, who: Cooler, running: bool): nat {
    match who
    case OneUid(u) => Side(m, u, running)
    case Pool(g) => PooledSide(uidOf, m, g.members, running)
  }

  function SideAdd(c: Core, u: Uid, running: bool, t: Tick): nat {
    if running then AnyAdd(c, u, t) else FgAdd(c, u, t)
  }

  function PooledAdd(c: Core, members: seq<string>, running: bool, t: Tick): nat {
    if members == [] then 0
    else
      var rest, key := members[..|members| - 1], members[|members| - 1];
      PooledAdd(c, rest, running, t) + (if key in c.cfg.uidOf then SideAdd(c, c.cfg.uidOf[key], running, t) else 0)
  }

  /** The seconds of the counted kind that a tick accounts. */
  function Added(c: Core, who: Cooler, running: bool, t: Tick): nat {
    match who
    case OneUid(u) => SideAdd(c, u, running, t)
    case Pool(g) => PooledAdd(c, g.members, running, t)
  }

  /** All seconds of the counted kind accounted in a run, also those zeroed since. */
  function Accounted(c: Core, who: Cooler, running: bool, ticks: seq<Tick>): nat {
    if ticks == [] then 0
    else
      var n := |ticks| - 1;
      Accounted(c, who, running, ticks[..n]) + Added(RunTicks(c, ticks[..n]), who, running, ticks[n])
  }

  predicate StartsNow(before: Option<nat>, after: Option<nat>) {
    after.Some? && after != before
  }

  /** How often a cooldown started in a run. */
  function StartCount(c: Core, who: Cooler, ticks: seq<Tick>): nat {
    if ticks == [] then 0
    else
      var before, t := RunTicks(c, ticks[..|ticks| - 1]), ticks[|ticks| - 1];
      StartCount(c, who, ticks[..|ticks| - 1])
      + (if StartsNow(CoolsTill(before.meters, who), CoolsTill(Next(before, t).meters, who)) then 1 else 0)
  }

  /** Foreground time is and stays within running time. */
  ghost predicate Ordered(c: Core) {
    NeedsLiveScan(c.cfg.rules) && FgWithinAny(c.meters)
  }

  /** Every rule that can start this cooldown has at least the limit and draws on the one counter, or on
      the foreground part of the running time. Rules of other uids and pools may share its counters in
      any way. */
  ghost predicate Limited(c: Core, who: Cooler, limit: nat, running: bool) {
    match who
    case OneUid(u) => forall j | j in UidJobs(c.cfg) && j.uid == u :: DrawsOn(j.d, limit, running, Ordered(c))
    case Pool(g) =>
      && DistinctIds(c.cfg.rules.groups) && g in PoolJobs(c.cfg.rules.groups)
      && DrawsOn(g.rules.duration, limit, running, false)
  }

  predicate DrawsOn(d: DurationRule, limit: nat, running: bool, ordered: bool) {
    d.limitMinutes >= limit && (CountsRunning(d.scope) == running || (running && ordered))
  }

  /** The starts so far are paid for, and while nothing cools down the counter is yet to be spent. */
  predicate Paid(till: Option<nat>, counted: nat, cost: nat, total: nat) {
    cost <= total && (till.None? ==> cost + counted <= total)
  }

  function Cost(before: Option<nat>, after: Option<nat>, limit: nat): nat {
    if StartsNow(before, after) then 60 * limit else 0
  }

  lemma UidJobPaid(m: Meters, j: UidJob, u: Uid, now: nat, limit: nat, running: bool, ordered: bool,
                   cost: nat, total: nat)
    requires HasCooldown(j.d) && (j.uid == u ==> DrawsOn(j.d, limit, running, ordered))
    requires ordered ==> FgWithinAny(m)
    requires Paid(CoolsTill(m, OneUid(u)), Side(m, u, running), cost, total)
    ensures var e := MaintainUid(m, j.uid, j.d, now);
      Paid(CoolsTill(e, OneUid(u)), Side(e, u, running),
           cost + Cost(CoolsTill(m, OneUid(u)), CoolsTill(e, OneUid(u)), limit), total)
  {}

  lemma {:induction false} UidJobsPaid(m: Meters, jobs: seq<UidJob>, u: Uid, now: nat,
                                       limit: nat, running: bool, ordered: bool, cost: nat, total: nat)
    requires AllCool(jobs) && forall j | j in jobs && j.uid == u :: DrawsOn(j.d, limit, running, ordered)
    requires ordered ==> FgWithinAny(m)
    requires Paid(CoolsTill(m, OneUid(u)), Side(m, u, running), cost, total)
    ensures var e := RunUidJobs(m, jobs, now);
      Paid(CoolsTill(e, OneUid(u)), Side(e, u, running),
           cost + Cost(CoolsTill(m, OneUid(u)), CoolsTill(e, OneUid(u)), limit), total)
  {
    hide CoolsTill, Side, DrawsOn, FgWithinAny, Relaxed;
    if jobs == [] {
    } else {
      var rest, j := jobs[..|jobs| - 1], jobs[|jobs| - 1];
      assert j in jobs && forall x | x in rest :: x in jobs;
      var mid := RunUidJobs(m, rest, now);
      UidJobsPaid(m, rest, u, now, limit, running, ordered, cost, total);
      if ordered {
        UidJobsSettle(map[], m, rest, now);
        RelaxedKeepsFgWithinAny(m, mid, now);
      }
      UidJobPaid(mid, j, u, now, limit, running, ordered,
        cost + Cost(CoolsTill(m, OneUid(u)), CoolsTill(mid, OneUid(u)), limit), total);
    }
  }

  /** Usage counted for a pool is part of what its members' counters show. */
  lemma {:induction false} UsageWithinSide(uidOf: map<string, Uid>, m: Meters, members: seq<string>, scope: string)
    ensures PooledUsage(uidOf, m, members, scope) <= PooledSide(uidOf, m, members, CountsRunning(scope))
  {
    if members == [] {
    } else {
      UsageWithinSide(uidOf, m, members[..|members| - 1], scope);
    }
  }

  /** A step that keeps or zeroes usage lowers what is counted. */
  lemma {:induction false} RelaxedLowersSide(uidOf: map<string, Uid>, m: Meters, e: Meters, now: nat,
                                             members: seq<string>, running: bool)
    requires Relaxed(m, e, now)
    ensures PooledSide(uidOf, e, members, running) <= PooledSide(uidOf, m, members, running)
    ensures forall u :: Side(e, u, running) <= Side(m, u, running)
  {
    forall u ensures Side(e, u, running) <= Side(m, u, running) {
      assert SameUsage(m, e, u) || NoUsage(e, u);
    }
    if members == [] {
    } else {
      RelaxedLowersSide(uidOf, m, e, now, members[..|members| - 1], running);
    }
  }

  lemma {:induction false} ZeroSide(uidOf: map<string, Uid>, m: Meters, members: seq<string>, running: bool)
    requires forall u | Resolves(uidOf, members, u) :: NoUsage(m, u)
    ensures PooledSide(uidOf, m, members, running) == 0
  {
    if members == [] {
    } else {
      var rest, key := members[..|members| - 1], members[|members| - 1];
      assert key in members && forall x | x in rest :: x in members;
      assert key in uidOf ==> Resolves(uidOf, members, uidOf[key]);
      forall u | Resolves(uidOf, rest, u) ensures NoUsage(m, u) {
        assert Resolves(uidOf, members, u);
      }
      ZeroSide(uidOf, m, rest, running);
    }
  }

  lemma PoolJobPaid(uidOf: map<string, Uid>, m: Meters, g: GroupRule, now: nat,
                    limit: nat, running: bool, cost: nat, total: nat)
    requires HasCooldown(g.rules.duration) && DrawsOn(g.rules.duration, limit, running, false)
    requires Paid(CoolsTill(m, Pool(g)), PooledSide(uidOf, m, g.members, running), cost, total)
    ensures var e := MaintainGroup(uidOf, m, g, now);
      Paid(CoolsTill(e, Pool(g)), PooledSide(uidOf, e, g.members, running),
           cost + Cost(CoolsTill(m, Pool(g)), CoolsTill(e, Pool(g)), limit), total)
  {
    hide PooledUsage, PooledSide, ZeroMembers, Resolves;
    var e := MaintainGroup(uidOf, m, g, now);
    MaintainGroupSettles(uidOf, m, g, now);
    RelaxedLowersSide(uidOf, m, e, now, g.members, running);
    UsageWithinSide(uidOf, m, g.members, g.rules.duration.scope);
    if RunOut(m.groupCooldownUntil, g.id, now) {
      PoolEnds(uidOf, m, g, now);
      ZeroSide(uidOf, e, g.members, running);
    }
  }

  lemma {:induction false} PoolJobsPaid(uidOf: map<string, Uid>, m: Meters, jobs: seq<GroupRule>, g: GroupRule,
                                        now: nat, limit: nat, running: bool, cost: nat, total: nat)
    requires HasCooldown(g.rules.duration) && DrawsOn(g.rules.duration, limit, running, false)
    requires forall h | h in jobs && h.id == g.id :: h == g
    requires Paid(CoolsTill(m, Pool(g)), PooledSide(uidOf, m, g.members, running), cost, total)
    ensures var e := RunPoolJobs(uidOf, m, jobs, now);
      Paid(CoolsTill(e, Pool(g)), PooledSide(uidOf, e, g.members, running),
           cost + Cost(CoolsTill(m, Pool(g)), CoolsTill(e, Pool(g)), limit), total)
  {
    hide PooledSide, MaintainGroup, DrawsOn, Resolves;
    if jobs == [] {
    } else {
      var rest, h := jobs[..|jobs| - 1], jobs[|jobs| - 1];
      assert h in jobs && forall x | x in rest :: x in jobs;
      var mid := RunPoolJobs(uidOf, m, rest, now);
      PoolJobsPaid(uidOf, m, rest, g, now, limit, running, cost, total);
      var spent := cost + Cost(CoolsTill(m, Pool(g)), CoolsTill(mid, Pool(g)), limit);
      if h == g {
        PoolJobPaid(uidOf, mid, g, now, limit, running, spent, total);
      } else {
        PoolLeavesOthers(uidOf, mid, h, g.id, now);
        MaintainGroupSettles(uidOf, mid, h, now);
        RelaxedLowersSide(uidOf, mid, MaintainGroup(uidOf, mid, h, now), now, g.members, running);
      }
    }
  }

  lemma {:induction false} CountedGrows(c: Core, members: seq<string>, running: bool, t: Tick)
    ensures PooledSide(c.cfg.uidOf, Counting(c, t), members, running)
         == PooledSide(c.cfg.uidOf, c.meters, members, running) + PooledAdd(c, members, running, t)
  {
    hide Counting, AnyAdd, FgAdd;
    if members == [] {
    } else {
      var key := members[|members| - 1];
      CountedGrows(c, members[..|members| - 1], running, t);
      if key in c.cfg.uidOf {
        SideGrows(c, c.cfg.uidOf[key], running, t);
      }
    }
  }

  lemma SideGrows(c: Core, u: Uid, running: bool, t: Tick)
    ensures Side(Counting(c, t), u, running) == Side(c.meters, u, running) + SideAdd(c, u, running, t)
  {
    hide Accumulate, AnyAdd, FgAdd;
    AccumulateOnMeter(c, u, t);
  }

  /** A tick keeps the balance, whatever else cools down or ends at it. */
  lemma TickPaid(c: Core, who: Cooler, limit: nat, running: bool, t: Tick, cost: nat, total: nat)
    requires NoReset(c, t.now) && Limited(c, who, limit, running)
    requires Paid(CoolsTill(c.meters, who), Counted(c.cfg.uidOf, c.meters, who, running), cost, total)
    ensures var e := Next(c, t).meters;
      Paid(CoolsTill(e, who), Counted(c.cfg.uidOf, e, who, running),
           cost + Cost(CoolsTill(c.meters, who), CoolsTill(e, who), limit), total + Added(c, who, running, t))
  {
    hide RunUidJobs, RunPoolJobs, AppJobs, GroupMemberJobs, Accumulate, PooledSide, PooledAdd, Side, SideAdd, DrawsOn,
         NeedsLiveScan, FgWithinAny;
    var uidOf, used, jobs, pools := c.cfg.uidOf, Counting(c, t), UidJobs(c.cfg), PoolJobs(c.cfg.rules.groups);
    AccumulateKeepsDeadlines(c.cfg, c.meters, Elapsed(c.lastTick, t.now), t.sample);
    AppJobsCool(uidOf, c.cfg.rules.apps);
    GroupJobsCool(uidOf, c.cfg.rules.groups);
    var mid, due := RunUidJobs(used, jobs, t.now), total + Added(c, who, running, t);
    UidJobsSettle(uidOf, used, jobs, t.now);
    PoolJobsSettle(uidOf, mid, pools, t.now);
    UidJobsKeepDeadlines(used, jobs, t.now);
    PoolJobsKeepDeadlines(uidOf, mid, pools, t.now);
    assert AllCool(jobs);
    hide KeepsDeadlines, Relaxed, AllCool;
    match who {
      case OneUid(u) =>
        SideGrows(c, u, running, t);
        if Ordered(c) {
          AccumulateKeepsFgWithinAny(c.cfg, c.meters, Elapsed(c.lastTick, t.now), t.sample);
        }
        UidJobsPaid(used, jobs, u, t.now, limit, running, Ordered(c), cost, due);
        RelaxedLowersSide(uidOf, mid, Next(c, t).meters, t.now, [], running);
      case Pool(g) =>
        CountedGrows(c, g.members, running, t);
        RelaxedLowersSide(uidOf, used, mid, t.now, g.members, running);
        PoolJobsAreDistinct(c.cfg.rules.groups);
        OneOfItsId(pools, g);
        PoolJobsPaid(uidOf, mid, pools, g, t.now, limit, running, cost, due);
    }
  }

  lemma OneOfItsId(groups: seq<GroupRule>, g: GroupRule)
    requires DistinctIds(groups) && g in groups
    ensures forall h | h in groups && h.id == g.id :: h == g
  {
    var k :| 0 <= k < |groups| && groups[k] == g;
  }

  /** What a number of starts costs in seconds. */
  function Price(starts: nat, limit: nat): nat { starts * (60 * limit) }

  lemma OneMoreStart(starts: nat, limit: nat)
    ensures Price(0, limit) == 0 && Price(starts + 1, limit) == Price(starts, limit) + 60 * limit
  {}

  lemma StaysLimited(c: Core, who: Cooler, limit: nat, running: bool, ticks: seq<Tick>)
    requires Limited(c, who, limit, running)
    ensures Limited(RunTicks(c, ticks), who, limit, running)
  {
    hide RunTicks, UidJobs, PoolJobs, NeedsLiveScan, FgWithinAny, DistinctIds;
    RunKeepsConfig(c, ticks);
    if Ordered(c) {
      RunKeepsFgWithinAny(c, ticks);
    }
  }

  lemma {:induction false} RunPaid(c: Core, who: Cooler, limit: nat, running: bool, ticks: seq<Tick>)
    requires WithinDay(c, ticks) && Limited(c, who, limit, running)
    ensures var e := RunTicks(c, ticks);
      Paid(CoolsTill(e.meters, who), Counted(c.cfg.uidOf, e.meters, who, running),
           Price(StartCount(c, who, ticks), limit),
           Counted(c.cfg.uidOf, c.meters, who, running) + Accounted(c, who, running, ticks))
  {
    hide TickCore, Limited, CoolsTill, Counted, Added, Price;
    if ticks == [] {
      OneMoreStart(0, limit);
    } else {
      var n := |ticks| - 1;
      var before := RunTicks(c, ticks[..n]);
      RunPaid(c, who, limit, running, ticks[..n]);
      StaysLimited(c, who, limit, running, ticks[..n]);
      RunWithinDay(c, ticks[..n]);
      TickPaid(before, who, limit, running, ticks[n], Price(StartCount(c, who, ticks[..n]), limit),
        Counted(c.cfg.uidOf, c.meters, who, running) + Accounted(c, who, running, ticks[..n]));
      OneMoreStart(StartCount(c, who, ticks[..n]), limit);
    }
  }

  /** Each cooldown of a uid or of a pool is paid for: starts times the limit never exceed the time
      counted at first and accounted since, under every counting scope and whatever rules overlap. */
  lemma StartsArePaidFor(c: Core, who: Cooler, limit: nat, running: bool, ticks: seq<Tick>)
    requires WithinDay(c, ticks) && Limited(c, who, limit, running)
    ensures StartCount(c, who, ticks) * (60 * limit)
         <= Counted(c.cfg.uidOf, c.meters, who, running) + Accounted(c, who, running, ticks)
  {
    hide WithinDay, Limited, CoolsTill, Counted, StartCount, Accounted, RunTicks;
    RunPaid(c, who, limit, running, ticks);
  }
}
