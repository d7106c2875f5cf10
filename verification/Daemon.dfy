/** The daemon: start-up, and the main loop that drives the engine. */
module Daemon {
  import opened Rules
  import opened Calendar
  import opened Wake
  import opened Foreground
  import opened EngineState
  import opened Schedule
  import opened GateThreads
  import opened EngineClass
  import opened Migration
  import opened Cooldowns
  import RulesStore
  import Restart

  /** The rules and state a process finds at start-up. */
  function Found(live: Option<RulesStore.Content>, backup: Option<RulesStore.Content>, copyOk: bool): RulesStore.Store {
    RulesStore.Restart(RulesStore.Store(DEFAULT_RULES, RulesStore.Default, live, backup), copyOk)
  }

  /** The first tick reloads the rules and reads the same package list twice. */
  predicate UsualStart(env: TickEnv) {
    env.reload.Some? && env.reload.value.uids.Some? && env.packages == Changed(env.reload.value.uids.value)
  }

  /** Start-up of the daemon: a new engine and its first tick, before the main loop. The wanted uids are
      blocked exactly when what the tick reads is readable and every update works. Usually it is the
      start-up that the restart results are about. */
  method StartDaemon(gate: Gate, disk: Disk, env: TickEnv, copyOk: bool)
    returns (engine: Engine, ok: bool, ghost order: seq<string>)
    requires gate.blockMap == {} && gate.mirror == {}
    modifies gate, disk`backup, disk`state
    ensures engine.gate == gate && engine.disk == disk && engine.Valid()
    ensures !Readable(env) ==> !ok && engine.blocked == {}
    ensures Readable(env) ==>
      var wanted := WantedBlocks(engine.Snapshot(), env.now, SeenScreenOff(engine.rules, env.sample));
      && (ok <==> forall u | u in wanted :: env.works(u))
      && engine.blocked <= wanted && (ok ==> engine.blocked == wanted)
    ensures disk.state ==
      if ok && env.now >= STATE_SAVE_SECS && env.saveOk then Some(Restart.SaveState(engine.Snapshot(), env.now))
      else old(disk.state)
    ensures Readable(env) ==>
      var first := Found(old(disk.live), old(disk.backup), copyOk).rules;
      && OrderOf(env, order)
      && engine.Snapshot() == TickCore(
           Prepared(Restart.LoadState(Restart.NewCore(first), old(disk.state), env.now), engine.rules, env, order),
           env.now, env.sample)
    ensures UsualStart(env) ==>
      engine.Snapshot() == Restart.FirstTick(Found(old(disk.live), old(disk.backup), copyOk).rules, old(disk.state),
                                             ConfigOf(engine.rules, env.reload.value), env.now, env.sample)
  {
    hide TickCore, WantedBlocks, BlockIndex, Verdicts, SeenScreenOff, AllNamed, OrderOf, Prepared, Reloaded,
         RulesStore.ReloadRules, RulesStore.LoadRules, Restart.LoadState, Restart.KeepInstalled;
    engine := new Engine(gate, disk, env.now, copyOk);
    ghost var first := Found(old(disk.live), old(disk.backup), copyOk).rules;
    assert engine.Stored().rules == first;
    ok, order := engine.Tick(env);
    if UsualStart(env) {
      SameListTwice(Restart.LoadState(Restart.NewCore(first), old(disk.state), env.now), engine.rules, env, order);
    }
  }

  /** A package list that the reload has just read changes nothing but what is forgotten. */
  lemma SameListTwice(c: Core, rules: RuleFile, env: TickEnv, order: seq<string>)
    requires UsualStart(env)
    ensures Prepared(c, rules, env, order) == Restart.KeepInstalled(Reloaded(c, ConfigOf(rules, env.reload.value)))
  {
    hide Restart.KeepInstalled, DropToggled;
    var c1 := Reloaded(c, ConfigOf(rules, env.reload.value));
    assert c1.cfg.(uidOf := env.packages.uids) == c1.cfg;
    SyncWithoutMoves(c1, env.packages.uids, order);
  }

  /** The settings after the first tick. */
  function StartSettings(first: RuleFile, file: Option<Restart.StateFile>, rules: RuleFile, env: TickEnv,
                         order: seq<string>): Config
    requires Readable(env)
  {
    var c := Restart.LoadState(Restart.NewCore(first), file, env.now);
    TickCore(Prepared(c, rules, env, order), env.now, env.sample).cfg
  }

  lemma SettingsAtStart(first: RuleFile, file: Option<Restart.StateFile>, rules: RuleFile, env: TickEnv,
                        order: seq<string>)
    requires Readable(env) && env.packages.Changed?
    ensures StartSettings(first, file, rules, env, order) ==
      if env.reload.Some? then ConfigOf(rules, env.reload.value).(uidOf := env.packages.uids)
      else Config(first, env.packages.uids, {}, None)
  {
    hide TickCore, Synced, DropToggled;
    var c := Restart.LoadState(Restart.NewCore(first), file, env.now);
    var c1 := if env.reload.Some? then Reloaded(c, ConfigOf(rules, env.reload.value)) else c;
    SyncedConfig(c1, env.packages.uids, order);
    TickKeepsRules(Prepared(c, rules, env, order), env.now, env.sample);
  }

  /** The zone of the rules in force applies after the first tick exactly when that tick reloads them or
      they set none; the clock is right exactly when it reloads or their offset is zero. The packages that
      probing finds are protected exactly when it reloads. `rules` are those in force after the tick. */
  lemma StartIff(first: RuleFile, file: Option<Restart.StateFile>, rules: RuleFile, env: TickEnv, order: seq<string>,
                 probed: set<string>)
    requires Readable(env) && env.packages.Changed? && probed != {}
    requires if env.reload.Some? then env.reload.value.protectedPkgs == probed else rules == first
    ensures var cfg := StartSettings(first, file, rules, env, order);
      && cfg.rules == rules
      && (cfg.zone == ZoneSecs(rules.utcHours) <==> env.reload.Some? || rules.utcHours == None)
      && (OffsetSecs(cfg.zone) == OffsetSecs(ZoneSecs(rules.utcHours))
          <==> env.reload.Some? || OffsetSecs(ZoneSecs(rules.utcHours)) == 0)
      && (cfg.protectedPkgs == probed <==> env.reload.Some?)
  {
    hide StartSettings;
    SettingsAtStart(first, file, rules, env, order);
  }

  /** Without a live rules file the first tick reloads nothing: the rules of the last good copy apply, but
      the clock stays in UTC whatever zone they set, and no package is protected. */
  lemma StartWithoutLiveFile(good: RuleFile, file: Option<Restart.StateFile>, env: TickEnv, order: seq<string>,
                             copyOk: bool)
    requires env.reload.None? && env.packages.Changed?
    ensures var first := Found(None, Some(RulesStore.Parsed(good)), copyOk).rules;
      var cfg := StartSettings(first, file, first, env, order);
      && first == Sanitized(good)
      && cfg == Config(first, env.packages.uids, {}, None)
      && (forall now: nat :: Today(now, cfg.zone) == Today(now, Some(0)))
      && forall key :: !IsProtected(cfg, key)
  {
    hide StartSettings, Sanitized;
    SettingsAtStart(Sanitized(good), file, Sanitized(good), env, order);
  }

  /** At one input: the last good copy sets UTC+8, and at 20:00 UTC the daemon's date is still the old one. */
  lemma StartOnTheWrongDay(file: Option<Restart.StateFile>, env: TickEnv, order: seq<string>)
    requires env.reload.None? && env.packages.Changed? && env.now == 72000
    ensures var good := DEFAULT_RULES.(utcHours := Some(8));
      var cfg := StartSettings(Found(None, Some(RulesStore.Parsed(good)), true).rules, file, good, env, order);
      Today(env.now, cfg.zone) == 0 && Today(env.now, ZoneSecs(good.utcHours)) == 1
  {
    hide StartSettings;
    var good := DEFAULT_RULES.(utcHours := Some(8));
    assert Sanitized(good) == good;
    SettingsAtStart(good, file, good, env, order);
  }

  // ---------- the main loop ----------

  function LoopOf(engine: Engine, nextTick: nat, settled: bool): Loop
    reads engine
  {
    Loop(engine.Snapshot(), engine.blocked, nextTick, settled)
  }

  /** Every block map update works. */
  ghost predicate AllWork(works: Uid -> bool) {
    forall u :: works(u)
  }

  /** One tick without changed files. */
  method TickOnce(engine: Engine, now: nat, s: Sample, works: Uid -> bool, saveOk: bool) returns (ok: bool)
    requires engine.Valid()
    modifies engine, engine.gate, engine.disk`backup, engine.disk`state
    ensures engine.Valid() && engine.Snapshot() == TickCore(old(engine.Snapshot()), now, s)
    ensures ok ==> engine.blocked == TickBlocks(old(engine.Snapshot()), now, s)
    ensures AllWork(works) ==> ok
  {
    hide TickCore, WantedBlocks, Verdicts, BlockIndex, AllNamed;
    TickKeepsRules(engine.Snapshot(), now, s);
    ghost var order;
    ok, order := engine.Tick(TickEnv(now, s, None, Same, works, saveOk));
  }

  /** One turn of the main loop: handle at most one request, then tick if it is time or if the
      request changed something. The state is that of the reference step even if the tick fails, and the
      blocked set too unless the last tick failed. It ticks exactly when it is time or a request was granted,
      and then sleeps until the next second at which something is due. A tick fails only when an update
      does, and is made again within the longest sleep. */
  method Turn(engine: Engine, nextTick: nat, settled: bool, r: Option<Request>, now: nat, s: Sample,
              works: Uid -> bool, saveOk: bool)
    returns (next: nat, ok: bool)
    requires engine.Valid() && TimeOnly(engine.rules) && WholeHours(engine.zone)
    requires Asleep(LoopOf(engine, nextTick, settled), now)
    modifies engine, engine.gate, engine.disk`backup, engine.disk`state
    ensures engine.Valid() && engine.Settings() == old(engine.Settings())
    ensures now < next && Asleep(LoopOf(engine, next, ok), now)
    ensures Erase(engine.Snapshot()) == Erase(ReferenceStep(old(engine.Snapshot()), r, now, s))
    ensures ok ==> engine.blocked == WantedBlocks(engine.Snapshot(), now, false)
    ensures if now >= nextTick || IsGranted(old(engine.Snapshot()), r, now)
            then SleepsUntilDue(engine.Snapshot(), engine.blocked, now, next - now)
            else next == nextTick && ok == settled && engine.Snapshot() == old(engine.Snapshot())
    ensures next == nextTick || next <= now + IDLE_TICK_SECS
    ensures AllWork(works) && !ok ==> !settled && next == nextTick
  {
    hide WantedBlocks, TickBlocks, TickCore, AddExtension, IsNextWake, WakeInputsOf, AllWork, SleepsUntilDue;
    ghost var c0 := engine.Snapshot();
    var changed := false;
    RequestsErase(c0, c0, r, now);
    if r.Some? {
      var grant := engine.AddExtension(r.value.key, r.value.minutes, now);
      changed := grant.Granted?;
    }
    ghost var c := engine.Snapshot();
    if now >= nextTick || changed {
      TimeOnlyTick(c, now, s);
      ok := TickOnce(engine, now, s, works, saveOk);
      var secs, i := TickInterval(engine.Snapshot(), engine.blocked, now);
      next := now + secs;
      assert AsleepSince(LoopOf(engine, next, ok), now, i);
    } else {
      next, ok := nextTick, settled;
      SleepingTickIsIdle(LoopOf(engine, nextTick, settled), now, s);
    }
  }

  /** One second of the loop against one second of the reference. */
  method RunSecond(engine: Engine, nextTick: nat, settled: bool, ghost reference: Core, rs: seq<Request>,
                   now: nat, s: Sample, works: Uid -> bool, saveOk: bool)
    returns (next: nat, ok: bool)
    requires engine.Valid() && TimeOnly(engine.rules) && WholeHours(engine.zone)
    requires Asleep(LoopOf(engine, nextTick, settled), now)
    requires Erase(engine.Snapshot()) == Erase(reference)
    modifies engine, engine.gate, engine.disk`backup, engine.disk`state
    ensures engine.Valid() && engine.Settings() == old(engine.Settings())
    ensures now < next && Asleep(LoopOf(engine, next, ok), now + 1)
    ensures Erase(engine.Snapshot()) == Erase(ReferenceSecond(reference, rs, now, s))
    ensures ok ==>
      engine.blocked == WantedBlocks(ReferenceSecond(reference, rs, now, s), now, SeenScreenOff(engine.rules, s))
    ensures next == nextTick || next <= now + IDLE_TICK_SECS
    ensures AllWork(works) && !ok ==> !settled && next == nextTick
  {
    hide WantedBlocks, TickCore, Requested, WakeInputsOf, IsNextWake, AllWork;
    next, ok := nextTick, settled;
    for j := 0 to |rs|
      invariant engine.Valid() && engine.Settings() == old(engine.Settings())
      invariant Asleep(LoopOf(engine, next, ok), now)
      invariant Erase(engine.Snapshot()) == Erase(ReferenceRequests(reference, rs[..j], now, s))
      invariant next == nextTick || next <= now + IDLE_TICK_SECS
      invariant AllWork(works) && !ok ==> !settled && next == nextTick
    {
      StepsErase(engine.Snapshot(), ReferenceRequests(reference, rs[..j], now, s), Some(rs[j]), now, s);
      assert rs[..j + 1][..j] == rs[..j];
      next, ok := Turn(engine, next, ok, Some(rs[j]), now, s, works, saveOk);
    }
    assert rs[..|rs|] == rs;
    StepsErase(engine.Snapshot(), ReferenceRequests(reference, rs, now, s), None, now, s);
    next, ok := Turn(engine, next, ok, None, now, s, works, saveOk);
    if ok {
      WantErases(engine.Snapshot(), ReferenceSecond(reference, rs, now, s), now, false);
    }
  }

  /** Every update worked since the start, or throughout the longest sleep. */
  ghost predicate LatelyWorks(works: seq<Uid -> bool>, k: nat)
    requires k < |works|
  {
    forall j | 0 <= j <= k && k < j + IDLE_TICK_SECS :: AllWork(works[j])
  }

  lemma ReferenceStarts(c: Core, from: nat, requests: seq<seq<Request>>, samples: seq<Sample>)
    requires |samples| == |requests|
    ensures ReferenceTrace(c, from, requests[..0], samples[..0]) == []
    ensures ReferenceRun(c, from, requests[..0], samples[..0]) == c
  {}

  lemma ReferenceGoesOn(c: Core, from: nat, requests: seq<seq<Request>>, samples: seq<Sample>, k: nat)
    requires |samples| == |requests| && k < |requests|
    ensures var run := ReferenceRun(c, from, requests[..k + 1], samples[..k + 1]);
      && run == ReferenceSecond(ReferenceRun(c, from, requests[..k], samples[..k]), requests[k], from + k, samples[k])
      && ReferenceTrace(c, from, requests[..k + 1], samples[..k + 1])
         == ReferenceTrace(c, from, requests[..k], samples[..k])
            + [WantedBlocks(run, from + k, SeenScreenOff(c.cfg.rules, samples[k]))]
  {
    hide WantedBlocks, ReferenceSecond;
    assert requests[..k + 1][..k] == requests[..k] && samples[..k + 1][..k] == samples[..k];
  }

  lemma NotLately(works: seq<Uid -> bool>, k: nat, j: nat)
    requires j <= k < |works| && k < j + IDLE_TICK_SECS && !AllWork(works[j])
    ensures !LatelyWorks(works, k)
  {
    hide AllWork;
  }

  lemma AlwaysLately(works: seq<Uid -> bool>)
    requires forall k | 0 <= k < |works| :: AllWork(works[k])
    ensures forall k | 0 <= k < |works| :: LatelyWorks(works, k)
  {
    hide AllWork;
  }

  lemma AwakeNow(l: Loop, now: nat)
    requires l.nextTick <= now
    ensures Asleep(l, now)
  {
    hide AsleepSince;
  }

  /** The main loop over any timeline of requests, from any state of the engine, with any updates of the
      block map failing: at the end of every second whose last tick succeeded, the blocked set is that of
      ticking every second. A second is settled whenever every update has worked since the start or for
      300 seconds, so with updates that work every second is. The state is the reference's throughout. */
  method RunDaemon(engine: Engine, from: nat, requests: seq<seq<Request>>, samples: seq<Sample>,
                   works: seq<Uid -> bool>, saveOk: bool)
    returns (trace: seq<set<Uid>>, settled: seq<bool>)
    requires |samples| == |requests| == |works|
    requires engine.Valid() && TimeOnly(engine.rules) && WholeHours(engine.zone)
    modifies engine, engine.gate, engine.disk`backup, engine.disk`state
    ensures engine.Valid() && (trace != [] ==> engine.blocked == trace[|trace| - 1])
    ensures Erase(engine.Snapshot()) == Erase(ReferenceRun(old(engine.Snapshot()), from, requests, samples))
    ensures |trace| == |settled| == |requests| == |ReferenceTrace(old(engine.Snapshot()), from, requests, samples)|
    ensures forall k | 0 <= k < |trace| && settled[k] ::
      trace[k] == ReferenceTrace(old(engine.Snapshot()), from, requests, samples)[k]
    ensures forall k | 0 <= k < |settled| :: LatelyWorks(works, k) ==> settled[k]
    ensures (forall k | 0 <= k < |works| :: AllWork(works[k])) ==>
      trace == ReferenceTrace(old(engine.Snapshot()), from, requests, samples)
  {
    hide WantedBlocks, TickCore, Requested, AllWork, LatelyWorks, Asleep, Erase, TimeOnly, WholeHours;
    hide ReferenceRun, ReferenceTrace, ReferenceSecond;
    ghost var c := engine.Snapshot();
    var next: nat, ok := from, false;
    // The first second since which every update has worked.
    ghost var since := 0;
    trace, settled := [], [];
    AwakeNow(LoopOf(engine, from, false), from);
    ReferenceStarts(c, from, requests, samples);
    for k := 0 to |requests|
      invariant engine.Valid() && engine.Settings() == old(engine.Settings())
      invariant trace != [] ==> engine.blocked == trace[|trace| - 1]
      invariant |trace| == |settled| == k == |ReferenceTrace(c, from, requests[..k], samples[..k])|
      invariant forall j | 0 <= j < |trace| && settled[j] ::
        trace[j] == ReferenceTrace(c, from, requests[..k], samples[..k])[j]
      invariant Erase(engine.Snapshot()) == Erase(ReferenceRun(c, from, requests[..k], samples[..k]))
      invariant Asleep(LoopOf(engine, next, ok), from + k)
      invariant 0 <= since <= k && (since > 0 ==> !AllWork(works[since - 1]))
      invariant k == 0 ==> next == from && !ok
      invariant !ok && since == 0 ==> k == 0
      invariant !ok && since > 0 ==> next < from + since + IDLE_TICK_SECS
      invariant k > 0 ==> from + k <= next < from + k + IDLE_TICK_SECS
      invariant forall j | 0 <= j < k :: LatelyWorks(works, j) ==> settled[j]
    {
      next, ok := RunSecond(engine, next, ok, ReferenceRun(c, from, requests[..k], samples[..k]),
                            requests[k], from + k, samples[k], works[k], saveOk);
      ReferenceGoesOn(c, from, requests, samples, k);
      trace, settled := trace + [engine.blocked], settled + [ok];
      if !AllWork(works[k]) {
        since := k + 1;
        NotLately(works, k, k);
      } else if !ok {
        NotLately(works, k, since - 1);
      }
    }
    if forall k | 0 <= k < |works| :: AllWork(works[k]) {
      AlwaysLately(works);
    }
    assert requests[..|requests|] == requests && samples[..|samples|] == samples;
  }

  // ---------- any rules ----------

  /** What each tick of a run wants blocked is what the trace shows after it. */
  ghost predicate ShowsWanted(c: Core, ticks: seq<Tick>, trace: seq<set<Uid>>)
    requires |trace| <= |ticks|
  {
    forall k | 0 <= k < |trace| ::
      trace[k] == TickBlocks(RunTicks(c, ticks[..k]), ticks[k].now, ticks[k].sample)
  }

  lemma NextIsTick(c: Core, t: Tick)
    ensures Next(c, t) == TickCore(c, t.now, t.sample)
  {}

  lemma RunStarts(c: Core, ticks: seq<Tick>)
    ensures RunTicks(c, ticks[..0]) == c && ShowsWanted(c, ticks, [])
  {}

  lemma RunGoesOn(c: Core, ticks: seq<Tick>, trace: seq<set<Uid>>)
    requires |trace| < |ticks| && ShowsWanted(c, ticks, trace)
    ensures var k := |trace|;
      && RunTicks(c, ticks[..k + 1]) == Next(RunTicks(c, ticks[..k]), ticks[k])
      && ShowsWanted(c, ticks, trace + [TickBlocks(RunTicks(c, ticks[..k]), ticks[k].now, ticks[k].sample)])
  {
    hide Next, TickBlocks;
    assert ticks[..|trace| + 1][..|trace|] == ticks[..|trace|];
  }

  /** The engine ticked at the given times with updates that all work, as the loop does without requests
      and changed files: its state is that of the run, and after each tick it blocks exactly what that
      tick wants. So a uid whose cooldown runs until after a tick is blocked by the engine then. */
  method RunTicking(engine: Engine, ticks: seq<Tick>, works: seq<Uid -> bool>, saveOk: bool)
    returns (trace: seq<set<Uid>>)
    requires engine.Valid() && |works| == |ticks|
    requires forall k | 0 <= k < |works| :: AllWork(works[k])
    modifies engine, engine.gate, engine.disk`backup, engine.disk`state
    ensures engine.Valid() && engine.Snapshot() == RunTicks(old(engine.Snapshot()), ticks)
    ensures |trace| == |ticks| && (trace != [] ==> engine.blocked == trace[|trace| - 1])
    ensures ShowsWanted(old(engine.Snapshot()), ticks, trace)
    ensures WithinDay(old(engine.Snapshot()), ticks) ==> CoolingIsBlocked(old(engine.Snapshot()), ticks, trace)
  {
    hide TickBlocks, TickCore, RunTicks, Next, WithinDay, CoolingIsBlocked, AllWork, ShowsWanted;
    ghost var c := engine.Snapshot();
    trace := [];
    RunStarts(c, ticks);
    for k := 0 to |ticks|
      invariant engine.Valid() && engine.Snapshot() == RunTicks(c, ticks[..k])
      invariant |trace| == k && (trace != [] ==> engine.blocked == trace[|trace| - 1])
      invariant ShowsWanted(c, ticks, trace)
    {
      RunGoesOn(c, ticks, trace);
      NextIsTick(engine.Snapshot(), ticks[k]);
      var _ := TickOnce(engine, ticks[k].now, ticks[k].sample, works[k], saveOk);
      trace := trace + [engine.blocked];
    }
    assert ticks[..|ticks|] == ticks;
    if WithinDay(c, ticks) {
      CoolingStaysBlocked(c, ticks, trace);
    }
  }

  /** Whatever cools down until after a tick, each uid it governs is blocked after that tick. */
  ghost predicate CoolingIsBlocked(c: Core, ticks: seq<Tick>, trace: seq<set<Uid>>)
    requires |trace| == |ticks|
  {
    forall slot, until, n: nat | CoolsUntil(c.meters, slot, until) && BeforeAll(ticks, n, until) ::
      forall u | GovernedBy(c.cfg, c.budget, u, slot, ticks[n].now) :: u in trace[n]
  }

  /** The ticks up to the n-th come before the deadline. */
  ghost predicate BeforeAll(ticks: seq<Tick>, n: nat, until: nat) {
    n < |ticks| && forall k | 0 <= k <= n :: ticks[k].now < until
  }

  lemma CoolingStaysBlocked(c: Core, ticks: seq<Tick>, trace: seq<set<Uid>>)
    requires |trace| == |ticks| && WithinDay(c, ticks) && ShowsWanted(c, ticks, trace)
    ensures CoolingIsBlocked(c, ticks, trace)
  {
    hide CoolsUntil, GovernedBy, TickBlocks, RunTicks;
    forall slot, until, n: nat | CoolsUntil(c.meters, slot, until) && BeforeAll(ticks, n, until)
      ensures forall u | GovernedBy(c.cfg, c.budget, u, slot, ticks[n].now) :: u in trace[n]
    {
      var some := ticks[..n + 1];
      CooldownHolds(c, slot, some, until);
      assert some[..n] == ticks[..n] && some[n] == ticks[n];
    }
  }
}
