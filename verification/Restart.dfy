/** Saving the day's counters, and what a restarted daemon makes of them. */
module Restart {
  import opened Rules
  import opened Calendar
  import opened Foreground
  import opened EngineState
  import opened Cooldowns
  import opened Usage

  /** The saved state: its date, counters, cooldowns and budgets. Extensions in force are not saved. */
  datatype StateFile = StateFile(
    day: int,
    meters: Meters,
    extGranted: map<Uid, nat>,
    groupExtGranted: map<string, nat>)

  function SaveState(c: Core, now: nat): StateFile {
    StateFile(Today(now, c.cfg.zone), c.meters, c.budget.extGranted, c.budget.groupExtGranted)
  }

  /** A new engine: rules only, and no zone yet, so its clock runs in UTC. */
  function NewCore(rules: RuleFile): Core {
    Core(Config(rules, map[], {}, None), EMPTY_BUDGET, EMPTY_METERS, None, None)
  }

  /** Restores a file whose date is today's by the engine's current clock. */
  function LoadState(c: Core, file: Option<StateFile>, now: nat): Core {
    if file.None? || file.value.day != Today(now, c.cfg.zone) then c
    else c.(
      lastDay := Some(Today(now, c.cfg.zone)),
      meters := file.value.meters,
      budget := c.budget.(extGranted := file.value.extGranted, groupExtGranted := file.value.groupExtGranted))
  }

  function Restrict(m: map<Uid, nat>, live: set<Uid>): map<Uid, nat> {
    map u | u in m && u in live :: m[u]
  }

  /** The meters of installed uids. */
  function Installed(m: Meters, live: set<Uid>): Meters {
    m.(cooldownUntil := Restrict(m.cooldownUntil, live),
       usageAny := Restrict(m.usageAny, live),
       usageFg := Restrict(m.usageFg, live))
  }

  /** Drops the per-uid state of uids that no package has any more. */
  function KeepInstalled(c: Core): Core {
    var live := c.cfg.uidOf.Values;
    c.(meters := Installed(c.meters, live),
       budget := c.budget.(extUntil := Restrict(c.budget.extUntil, live),
                           extGranted := Restrict(c.budget.extGranted, live)))
  }

  /** Start-up: a new engine restores the state, its first tick reloads the rules, the zone and the
      uid map, forgets uninstalled packages, and only then looks at the date. */
  function FirstTick(rules: RuleFile, file: Option<StateFile>, cfg: Config, now: nat, s: Sample): Core {
    TickCore(KeepInstalled(Reloaded(LoadState(NewCore(rules), file, now), cfg)), now, s)
  }

  function SavedBudget(file: StateFile, cfg: Config): Budget {
    Budget(map[], map[], Restrict(file.extGranted, cfg.uidOf.Values), file.groupExtGranted)
  }

  lemma NothingToDrop(before: seq<GroupRule>, cfg: Config)
    ensures DropToggled(EMPTY_METERS, before, cfg) == EMPTY_METERS
    ensures Installed(EMPTY_METERS, cfg.uidOf.Values) == EMPTY_METERS
  {
    assert Restrict(map[], cfg.uidOf.Values) == map[];
  }

  // ---------- the maintenance pass of the first tick ----------

  lemma {:induction false} UidJobsKeepEmpty(jobs: seq<UidJob>, now: nat)
    requires AllCool(jobs)
    ensures RunUidJobs(EMPTY_METERS, jobs, now) == EMPTY_METERS
  {
    if jobs == [] {
    } else {
      assert jobs[|jobs| - 1] in jobs && forall j | j in jobs[..|jobs| - 1] :: j in jobs;
      UidJobsKeepEmpty(jobs[..|jobs| - 1], now);
    }
  }

  lemma {:induction false} EmptyPool(uidOf: map<string, Uid>, members: seq<string>, scope: string)
    ensures PooledUsage(uidOf, EMPTY_METERS, members, scope) == 0
  {
    if members == [] {
    } else {
      EmptyPool(uidOf, members[..|members| - 1], scope);
    }
  }

  lemma {:induction false} PoolJobsKeepEmpty(uidOf: map<string, Uid>, jobs: seq<GroupRule>, now: nat)
    requires forall g | g in jobs :: HasCooldown(g.rules.duration)
    ensures RunPoolJobs(uidOf, EMPTY_METERS, jobs, now) == EMPTY_METERS
  {
    if jobs == [] {
    } else {
      var g := jobs[|jobs| - 1];
      assert g in jobs && forall h | h in jobs[..|jobs| - 1] :: h in jobs;
      PoolJobsKeepEmpty(uidOf, jobs[..|jobs| - 1], now);
      EmptyPool(uidOf, g.members, g.rules.duration.scope);
    }
  }

  /** Without usage nothing cools down. */
  lemma MaintainKeepsEmpty(cfg: Config, now: nat)
    ensures Maintain(cfg, EMPTY_METERS, now) == EMPTY_METERS
  {
    hide RunUidJobs, RunPoolJobs, AppJobs, GroupMemberJobs;
    AppJobsCool(cfg.uidOf, cfg.rules.apps);
    GroupJobsCool(cfg.uidOf, cfg.rules.groups);
    UidJobsKeepEmpty(UidJobs(cfg), now);
    PoolJobsKeepEmpty(cfg.uidOf, PoolJobs(cfg.rules.groups), now);
  }

  /** The saved meters are in force for the installed uids: usage as saved unless a cooldown that concerns
      the uid has run out meanwhile, every deadline still ahead as saved, a uid cooldown that has run out
      ended with its usage; uninstalled uids have no usage. */
  ghost predicate Survives(cfg: Config, saved: Meters, e: Meters, now: nat) {
    var live := cfg.uidOf.Values;
    && (forall u | u in live && !Expired(cfg, saved, u, now) :: SameUsage(saved, e, u))
    && (forall u | u in live && Active(saved.cooldownUntil, u, now) ::
          u in e.cooldownUntil && e.cooldownUntil[u] == saved.cooldownUntil[u])
    && (forall id | Active(saved.groupCooldownUntil, id, now) ::
          id in e.groupCooldownUntil && e.groupCooldownUntil[id] == saved.groupCooldownUntil[id])
    && (forall u | u in live && Mentions(UidJobs(cfg), u) && RunOut(saved.cooldownUntil, u, now) ::
          u !in e.cooldownUntil && NoUsage(e, u))
    && (forall u | u !in live :: NoUsage(e, u))
  }

  lemma MaintainedSurvives(cfg: Config, saved: Meters, now: nat)
    ensures Survives(cfg, saved, Maintain(cfg, Installed(saved, cfg.uidOf.Values), now), now)
  {
    hide RunUidJobs, RunPoolJobs, AppJobs, GroupMemberJobs, PoolJobs, Resolves, Mentions, RunOut;
    var m, jobs, pools := Installed(saved, cfg.uidOf.Values), UidJobs(cfg), PoolJobs(cfg.rules.groups);
    var mid, e := RunUidJobs(m, jobs, now), Maintain(cfg, m, now);
    UidJobsKeepDeadlines(m, jobs, now);
    PoolJobsKeepDeadlines(cfg.uidOf, mid, pools, now);
    UidJobsSettle(cfg.uidOf, m, jobs, now);
    PoolJobsSettle(cfg.uidOf, mid, pools, now);
    AppJobsCool(cfg.uidOf, cfg.rules.apps);
    GroupJobsCool(cfg.uidOf, cfg.rules.groups);
    forall u | u in cfg.uidOf.Values ensures RunOut(m.cooldownUntil, u, now) == RunOut(saved.cooldownUntil, u, now) {
      SameRunOut(saved.cooldownUntil, cfg.uidOf.Values, u, now);
    }
    forall u | u in cfg.uidOf.Values && !Expired(cfg, saved, u, now) ensures SameUsage(saved, e, u) {
      MaintainKeepsUsage(cfg, m, u, now);
    }
    forall u | u in cfg.uidOf.Values && Mentions(jobs, u) && RunOut(saved.cooldownUntil, u, now)
      ensures u !in e.cooldownUntil && NoUsage(e, u)
    {
      UidJobsEnd(m, jobs, u, now);
      assert SameUsage(mid, e, u) || NoUsage(e, u);
    }
    forall u | u !in cfg.uidOf.Values ensures NoUsage(e, u) {
      assert SameUsage(m, mid, u) || NoUsage(mid, u);
      assert SameUsage(mid, e, u) || NoUsage(e, u);
    }
  }

  lemma SameRunOut(m: map<Uid, nat>, live: set<Uid>, u: Uid, now: nat)
    requires u in live
    ensures RunOut(Restrict(m, live), u, now) == RunOut(m, u, now)
  {}

  // ---------- restarts ----------

  /** The saved state survives the restart exactly when its date is today's both in UTC and in the
      configured zone; otherwise nothing of it does. Extensions in force never survive. */
  lemma StateSurvivesIff(rules: RuleFile, file: StateFile, cfg: Config, now: nat, s: Sample)
    ensures var e, saved := FirstTick(rules, Some(file), cfg, now, s), DropToggled(file.meters, rules.groups, cfg);
      && e.cfg == cfg && e.lastDay == Some(Today(now, cfg.zone))
      && (if file.day == Today(now, None) == Today(now, cfg.zone)
          then e.meters == Maintain(cfg, Installed(saved, cfg.uidOf.Values), now)
               && Survives(cfg, saved, e.meters, now) && e.budget == SavedBudget(file, cfg)
          else e.meters == EMPTY_METERS && e.budget == EMPTY_BUDGET)
  {
    hide Maintain, Today, NeedsUsage, DropToggled, Survives, Installed;
    NothingToDrop(rules.groups, cfg);
    MaintainKeepsEmpty(cfg, now);
    MaintainedSurvives(cfg, DropToggled(file.meters, rules.groups, cfg), now);
    assert Restrict(map[], cfg.uidOf.Values) == map[];
  }

  /** Without a state file, and with one of another local date, every counter starts afresh. */
  lemma NothingFromAnotherDay(rules: RuleFile, file: Option<StateFile>, cfg: Config, now: nat, s: Sample)
    requires file.Some? ==> file.value.day != Today(now, cfg.zone)
    ensures var e := FirstTick(rules, file, cfg, now, s);
      e.meters == EMPTY_METERS && e.budget == EMPTY_BUDGET
  {
    hide Maintain, Today, NeedsUsage, DropToggled, Installed, Survives;
    NothingToDrop(rules.groups, cfg);
    MaintainKeepsEmpty(cfg, now);
    assert Restrict(map[], cfg.uidOf.Values) == map[];
    if file.Some? {
      StateSurvivesIff(rules, file.value, cfg, now, s);
    }
  }

  /** Saving and restarting under the same rules on the same local date keeps the day's counters,
      cooldowns and budgets exactly when that date is also the UTC date at the restart. */
  lemma SaveThenRestart(c: Core, saved: nat, cfg: Config, now: nat, s: Sample)
    requires cfg.rules == c.cfg.rules && cfg.zone == c.cfg.zone && DistinctIds(cfg.rules.groups)
    requires Today(saved, cfg.zone) == Today(now, cfg.zone)
    ensures var e := FirstTick(c.cfg.rules, Some(SaveState(c, saved)), cfg, now, s);
      if Today(now, None) == Today(now, cfg.zone)
      then e.meters == Maintain(cfg, Installed(c.meters, cfg.uidOf.Values), now)
           && Survives(cfg, c.meters, e.meters, now)
           && e.budget == SavedBudget(SaveState(c, saved), cfg)
      else e.meters == EMPTY_METERS && e.budget == EMPTY_BUDGET
  {
    hide Maintain, Today, FirstTick, DropToggled, DistinctIds, Survives;
    SameGroupsToggleNothing(c.meters, cfg);
    StateSurvivesIff(c.cfg.rules, SaveState(c, saved), cfg, now, s);
  }

  /** East of Greenwich a restart before the UTC date changes loses the day: at 05:00 in UTC+8 a uid
      that had used up its extension minutes gets a full budget again. */
  lemma RestartCanLoseTheDay()
    ensures exists c: Core, now: nat, s: Sample, u: Uid ::
      && Get(c.budget.extGranted, u) == EXTENSION_CAP
      && u in c.cfg.uidOf.Values
      && Get(FirstTick(c.cfg.rules, Some(SaveState(c, now)), c.cfg, now, s).budget.extGranted, u) == 0
  {
    var cfg := Config(DEFAULT_RULES.(utcHours := Some(8)), map["0:com.foo" := 10001], {}, Some(28800));
    var c := Core(cfg, EMPTY_BUDGET.(extGranted := map[10001 := EXTENSION_CAP]), EMPTY_METERS, None, None);
    var now, s := 86400 + 21 * 3600, Sample({}, map[], false);
    assert Today(now, None) == 1 && Today(now, cfg.zone) == 2;
    assert cfg.uidOf["0:com.foo"] == 10001;
    LostBudget(c, now, s);
    assert Get(c.budget.extGranted, 10001) == EXTENSION_CAP;
  }

  lemma LostBudget(c: Core, now: nat, s: Sample)
    requires Today(now, None) != Today(now, c.cfg.zone) && DistinctIds(c.cfg.rules.groups)
    ensures FirstTick(c.cfg.rules, Some(SaveState(c, now)), c.cfg, now, s).budget == EMPTY_BUDGET
  {
    hide Today, FirstTick;
    SaveThenRestart(c, now, c.cfg, now, s);
  }
}
