/** The rule engine: its fields, and its methods proved against the specification functions. */
module EngineClass {
  import opened Sorting
  import opened Rules
  import opened Calendar
  import opened Foreground
  import opened Wake
  import opened EngineState
  import opened Wants
  import opened Meaning
  import opened Cooldowns
  import opened GateThreads
  import opened Migration
  import RulesStore
  import Restart

  const STATE_SAVE_SECS := 60

  /** The files the engine reads and writes. */
  class Disk {
    var live: Option<RulesStore.Content>
    var backup: Option<RulesStore.Content>
    var state: Option<Restart.StateFile>

    constructor (live: Option<RulesStore.Content>, backup: Option<RulesStore.Content>, state: Option<Restart.StateFile>)
      ensures this.live == live && this.backup == backup && this.state == state
    {
      this.live, this.backup, this.state := live, backup, state;
    }
  }

  /** What a reload finds: whether the backup copy succeeds, the protected packages, and the uid map
      unless the package list cannot be read. */
  datatype ReloadEnv = ReloadEnv(copyOk: bool, protectedPkgs: set<string>, uids: Option<map<string, Uid>>)

  /** What the package list check finds. */
  datatype PackageCheck = Same | Unreadable | Changed(uids: map<string, Uid>)

  /** What a tick meets: the time, the sample, changed files, for which uids a block map update works,
      and whether writing the state file works. */
  datatype TickEnv = TickEnv(
    now: nat,
    sample: Sample,
    reload: Option<ReloadEnv>,
    packages: PackageCheck,
    works: Uid -> bool,
    saveOk: bool)

  /** Updates work for every uid that has to change. */
  ghost predicate ChangesWork(before: set<Uid>, wanted: set<Uid>, works: Uid -> bool) {
    forall u | (u in before) != (u in wanted) :: works(u)
  }

  /** The configuration that a reload takes over. */
  function ConfigOf(rules: RuleFile, env: ReloadEnv): Config
    requires env.uids.Some?
  {
    Config(rules, env.uids.value, env.protectedPkgs, ZoneSecs(rules.utcHours))
  }

  /** Nothing that a tick reads before its own work fails. */
  predicate Readable(env: TickEnv) {
    (env.reload.Some? ==> env.reload.value.uids.Some?) && !env.packages.Unreadable?
  }

  /** The order in which a tick goes through the keys of a changed package list. */
  ghost predicate OrderOf(env: TickEnv, order: seq<string>) {
    env.packages.Changed? ==> Listing(order, env.packages.uids.Keys)
  }

  /** The state that a tick works on: reloaded if the rules changed, synced if the package list did. */
  function Prepared(c: Core, rules: RuleFile, env: TickEnv, order: seq<string>): Core
    requires Readable(env)
  {
    var c1 := if env.reload.Some? then Reloaded(c, ConfigOf(rules, env.reload.value)) else c;
    if env.packages.Changed? then Synced(c1, env.packages.uids, order) else c1
  }

  class Engine {
    const gate: Gate
    const disk: Disk
    var rules: RuleFile
    var rulesSource: RulesStore.Source
    var uidOf: map<string, Uid>
    var protectedPkgs: set<string>
    var zone: Option<int>
    var blocked: set<Uid>
    var extensionUntil: map<Uid, nat>
    var groupExtensionUntil: map<string, nat>
    var extGrantedToday: map<Uid, nat>
    var groupExtGrantedToday: map<string, nat>
    var cooldownUntil: map<Uid, nat>
    var groupCooldownUntil: map<string, nat>
    var usageSeconds: map<Uid, nat>
    var usageFg: map<Uid, nat>
    var lastTick: Option<nat>
    var lastDay: Option<int>
    var lastSave: nat

    function Settings(): Config
      reads this`rules, this`uidOf, this`protectedPkgs, this`zone
    {
      Config(rules, uidOf, protectedPkgs, zone)
    }

    function Budgets(): Budget
      reads this`extensionUntil, this`groupExtensionUntil, this`extGrantedToday, this`groupExtGrantedToday
    {
      Budget(extensionUntil, groupExtensionUntil, extGrantedToday, groupExtGrantedToday)
    }

    function Metered(): Meters
      reads this`cooldownUntil, this`groupCooldownUntil, this`usageSeconds, this`usageFg
    {
      Meters(cooldownUntil, groupCooldownUntil, usageSeconds, usageFg)
    }

    /** The bookkeeping part of the state. */
    function Snapshot(): Core
      reads this
    {
      Core(Settings(), Budgets(), Metered(), lastTick, lastDay)
    }

    /** The rules in force together with the files they come from. */
    function Stored(): RulesStore.Store
      reads this`rules, this`rulesSource, disk
    {
      RulesStore.Store(rules, rulesSource, disk.live, disk.backup)
    }

    /** The three copies of the block list agree and hold app uids only. */
    ghost predicate Valid()
      reads this`blocked, gate
    {
      blocked == gate.blockMap == gate.mirror && forall u | u in blocked :: u >= FIRST_APP_UID
    }

    /** A new engine loads the rules, then the state, with its clock still in UTC. */
    constructor (gate: Gate, disk: Disk, now: nat, copyOk: bool)
      requires gate.blockMap == {} && gate.mirror == {}
      modifies disk`backup
      ensures this.gate == gate && this.disk == disk
      ensures Valid() && blocked == {} && lastSave == 0
      ensures Stored() == RulesStore.Restart(
        RulesStore.Store(DEFAULT_RULES, RulesStore.Default, old(disk.live), old(disk.backup)), copyOk)
      ensures Snapshot() == Restart.LoadState(Restart.NewCore(rules), old(disk.state), now)
    {
      this.gate, this.disk := gate, disk;
      rules, rulesSource := DEFAULT_RULES, RulesStore.Default;
      uidOf, protectedPkgs, zone, blocked := map[], {}, None, {};
      extensionUntil, groupExtensionUntil, extGrantedToday, groupExtGrantedToday := map[], map[], map[], map[];
      cooldownUntil, groupCooldownUntil, usageSeconds, usageFg := map[], map[], map[], map[];
      lastTick, lastDay, lastSave := None, None, 0;
      new;
      LoadRules(copyOk);
      LoadState(now);
    }

    // ---------- rules ----------

    method LoadRules(copyOk: bool)
      modifies this`rules, this`rulesSource, disk`backup
      ensures Stored() == RulesStore.LoadRules(old(Stored()), copyOk)
    {
      var live := RulesStore.Load(disk.live);
      if live.Some? {
        rules, rulesSource := live.value, RulesStore.File;
        RefreshBackup(copyOk);
        return;
      }
      var backup := RulesStore.Load(disk.backup);
      if backup.Some? {
        rules, rulesSource := backup.value, RulesStore.Backup;
      } else {
        rules, rulesSource := DEFAULT_RULES, RulesStore.Default;
      }
    }

    method RefreshBackup(copyOk: bool)
      modifies disk`backup
      ensures disk.backup == if copyOk then disk.live else old(disk.backup)
    {
      if copyOk {
        disk.backup := disk.live;
      }
    }

    /** Takes over the live file when it parses; otherwise only a fallback rule set is replaced. */
    method ReloadRules(copyOk: bool)
      modifies this`rules, this`rulesSource, disk`backup
      ensures Stored() == RulesStore.ReloadRules(old(Stored()), copyOk)
    {
      hide RulesStore.Load;
      var live := RulesStore.Load(disk.live);
      if live.Some? {
        rules, rulesSource := live.value, RulesStore.File;
        RefreshBackup(copyOk);
      } else if rulesSource != RulesStore.File {
        LoadRules(copyOk);
      }
    }

    /** Reloads rules, zone, protected packages and the uid map; cooldowns started under another
        pooling mode are dropped. When the uid map cannot be read the reload stops there. */
    method Reload(env: ReloadEnv) returns (ok: bool)
      modifies this`rules, this`rulesSource, this`zone, this`protectedPkgs, this`uidOf,
               this`cooldownUntil, this`groupCooldownUntil, disk`backup
      ensures ok == env.uids.Some?
      ensures Stored() == RulesStore.ReloadRules(old(Stored()), env.copyOk)
      ensures Settings() ==
        Config(rules, if ok then env.uids.value else old(uidOf), env.protectedPkgs, ZoneSecs(rules.utcHours))
      ensures Metered() == if ok then DropToggled(old(Metered()), old(rules).groups, Settings()) else old(Metered())
    {
      hide RulesStore.ReloadRules, ToggledIds, ToggledUids;
      var before := rules.groups;
      ReloadRules(env.copyOk);
      zone := ZoneSecs(rules.utcHours);
      protectedPkgs := env.protectedPkgs;
      if env.uids.None? {
        return false;
      }
      uidOf := env.uids.value;
      ResetToggled(before);
      return true;
    }

    method ResetToggled(before: seq<GroupRule>)
      modifies this`cooldownUntil, this`groupCooldownUntil
      ensures groupCooldownUntil == old(groupCooldownUntil) - ToggledIds(before, rules.groups)
      ensures cooldownUntil == old(cooldownUntil) - ToggledUids(before, rules.groups, uidOf)
    {
      for k := 0 to |before|
        invariant groupCooldownUntil == old(groupCooldownUntil) - ToggledIds(before[..k], rules.groups)
        invariant cooldownUntil == old(cooldownUntil) - ToggledUids(before[..k], rules.groups, uidOf)
      {
        var g := before[k];
        OneMoreGroup(before[..k], g, rules.groups, uidOf);
        assert before[..k + 1] == before[..k] + [g];
        if Toggled(g, rules.groups) {
          groupCooldownUntil := groupCooldownUntil - {g.id};
          var members := FindGroup(rules.groups, g.id).value.members;
          cooldownUntil := cooldownUntil - set m | m in members && m in uidOf :: uidOf[m];
        }
      }
      assert before[..|before|] == before;
    }

    /** Installs a candidate rules file through the live file, or refuses it. Writing the file may fail;
        then nothing has changed. */
    method ApplyRulesFile(candidate: Option<RulesStore.Content>, writeOk: bool, env: ReloadEnv) returns (ok: bool)
      modifies this`rules, this`rulesSource, this`zone, this`protectedPkgs, this`uidOf,
               this`cooldownUntil, this`groupCooldownUntil, disk`live, disk`backup
      ensures Stored() == RulesStore.Apply(old(Stored()), candidate, writeOk, env.copyOk).0
      ensures ok == (RulesStore.Apply(old(Stored()), candidate, writeOk, env.copyOk).1 && env.uids.Some?)
    {
      if candidate.None? || candidate.value.Unparseable? {
        return false;
      }
      if candidate.value.rules.version > RULES_VERSION_MAX {
        return false;
      }
      var canonical := Sanitize(candidate.value.rules);
      if !writeOk {
        return false;
      }
      disk.live := Some(RulesStore.Parsed(canonical));
      var reloaded := Reload(env);
      return reloaded && rulesSource == RulesStore.File;
    }

    // ---------- saved state ----------

    method SetMeters(m: Meters)
      modifies this`cooldownUntil, this`groupCooldownUntil, this`usageSeconds, this`usageFg
      ensures Metered() == m
    {
      cooldownUntil, groupCooldownUntil := m.cooldownUntil, m.groupCooldownUntil;
      usageSeconds, usageFg := m.usageAny, m.usageFg;
    }

    method LoadState(now: nat)
      modifies this`lastDay, this`usageSeconds, this`usageFg, this`cooldownUntil, this`groupCooldownUntil,
               this`extGrantedToday, this`groupExtGrantedToday
      ensures Snapshot() == Restart.LoadState(old(Snapshot()), disk.state, now)
    {
      hide Today;
      if disk.state.None? {
        return;
      }
      var file := disk.state.value;
      var today := Today(now, zone);
      if file.day != today {
        return;
      }
      lastDay := Some(today);
      SetMeters(file.meters);
      extGrantedToday, groupExtGrantedToday := file.extGranted, file.groupExtGranted;
    }

    /** A write that fails does so silently; then the previous file stays. */
    method SaveState(now: nat, saveOk: bool)
      modifies this`lastSave, disk`state
      ensures lastSave == now
      ensures disk.state == if saveOk then Some(Restart.SaveState(Snapshot(), now)) else old(disk.state)
    {
      if saveOk {
        disk.state := Some(Restart.StateFile(Today(now, zone),
          Meters(cooldownUntil, groupCooldownUntil, usageSeconds, usageFg), extGrantedToday, groupExtGrantedToday));
      }
      lastSave := now;
    }

    // ---------- packages ----------

    /** Follows a changed uid map: usage and extensions of a key that moved go with it, key by key in
        hash order; budgets and cooldowns do not, and what belongs to no installed uid is dropped. */
    method SyncPackages(check: PackageCheck) returns (ok: bool, ghost order: seq<string>)
      modifies this`uidOf, this`usageSeconds, this`usageFg, this`extensionUntil, this`extGrantedToday,
               this`cooldownUntil
      ensures ok == !check.Unreadable?
      ensures !check.Changed? ==> Snapshot() == old(Snapshot())
      ensures check.Changed? ==>
        Listing(order, check.uids.Keys) && Snapshot() == Synced(old(Snapshot()), check.uids, order)
    {
      hide Restart.Restrict, MoveAll, Listing;
      order := [];
      match check
      case Same => return true, order;
      case Unreadable => return false, order;
      case Changed(uids) =>
        order := MigrateMoved(uids);
        uidOf := uids;
        DropUninstalled();
        return true, order;
    }

    /** Forgets the per-uid state of uids that no package has. */
    method DropUninstalled()
      modifies this`usageSeconds, this`usageFg, this`extensionUntil, this`extGrantedToday, this`cooldownUntil
      ensures Snapshot() == Restart.KeepInstalled(old(Snapshot()))
    {
      hide Restart.Restrict;
      var live := uidOf.Values;
      usageSeconds := Restart.Restrict(usageSeconds, live);
      usageFg := Restart.Restrict(usageFg, live);
      extensionUntil := Restart.Restrict(extensionUntil, live);
      extGrantedToday := Restart.Restrict(extGrantedToday, live);
      cooldownUntil := Restart.Restrict(cooldownUntil, live);
    }

    /** Moves usage and extensions of every key whose uid changed, in hash order. */
    method MigrateMoved(uids: map<string, Uid>) returns (ghost order: seq<string>)
      modifies this`usageSeconds, this`usageFg, this`extensionUntil
      ensures Listing(order, uids.Keys)
      ensures usageSeconds == MoveAll(uidOf, uids, order, old(usageSeconds))
      ensures usageFg == MoveAll(uidOf, uids, order, old(usageFg))
      ensures extensionUntil == MoveAll(uidOf, uids, order, old(extensionUntil))
    {
      hide Moved, MoveAll, Listing;
      var todo := uids.Keys;
      order := [];
      assert uids.Keys - todo == {};
      NothingListed(uidOf, uids, usageSeconds);
      NothingListed(uidOf, uids, usageFg);
      NothingListed(uidOf, uids, extensionUntil);
      while todo != {}
        invariant todo <= uids.Keys && Listing(order, uids.Keys - todo)
        invariant usageSeconds == MoveAll(uidOf, uids, order, old(usageSeconds))
        invariant usageFg == MoveAll(uidOf, uids, order, old(usageFg))
        invariant extensionUntil == MoveAll(uidOf, uids, order, old(extensionUntil))
      {
        var key := Pick(todo);
        OneMoreListed(order, uids.Keys - todo, key);
        OneMoreMoved(uidOf, uids, order, key, old(usageSeconds));
        OneMoreMoved(uidOf, uids, order, key, old(usageFg));
        OneMoreMoved(uidOf, uids, order, key, old(extensionUntil));
        assert uids.Keys - (todo - {key}) == (uids.Keys - todo) + {key};
        todo := todo - {key};
        order := order + [key];
        if key in uidOf && uidOf[key] != uids[key] {
          var from, to := uidOf[key], uids[key];
          usageSeconds := Moved(usageSeconds, from, to);
          usageFg := Moved(usageFg, from, to);
          extensionUntil := Moved(extensionUntil, from, to);
        }
      }
      assert uids.Keys - {} == uids.Keys;
    }

    // ---------- the tick ----------

    method ResetDay(now: nat)
      modifies this`lastDay, this`usageSeconds, this`usageFg, this`extensionUntil, this`groupExtensionUntil,
               this`extGrantedToday, this`groupExtGrantedToday, this`cooldownUntil, this`groupCooldownUntil
      ensures Snapshot() == DailyReset(old(Snapshot()), now)
    {
      hide Today;
      var today := Today(now, zone);
      if lastDay != Some(today) {
        lastDay := Some(today);
        usageSeconds, usageFg := map[], map[];
        extensionUntil, groupExtensionUntil := map[], map[];
        extGrantedToday, groupExtGrantedToday := map[], map[];
        cooldownUntil, groupCooldownUntil := map[], map[];
      }
    }

    method AccumulateUsage(now: nat, s: Sample)
      modifies this`lastTick, this`usageSeconds, this`usageFg
      ensures lastTick == Some(now)
      ensures Meters(cooldownUntil, groupCooldownUntil, usageSeconds, usageFg)
        == old(Accumulate(Snapshot().cfg, Snapshot().meters, Elapsed(lastTick, now), s))
      ensures CountsTick(old(Snapshot()), Metered(), Cooldowns.Tick(now, s))
    {
      hide CountsTick, NeedsUsage, NeedsLiveScan, DurationTargets, LiveUids, FgUids, AddToAll, Elapsed;
      AccumulateCountsTick(Snapshot(), Cooldowns.Tick(now, s));
      var elapsed := Elapsed(lastTick, now);
      lastTick := Some(now);
      if elapsed == 0 || !NeedsUsage(rules) {
        return;
      }
      var targets := DurationTargets(Config(rules, uidOf, protectedPkgs, zone));
      var live, fg := UidsSnapshot(s, NeedsLiveScan(rules), targets);
      ghost var any0, fg0 := usageSeconds, usageFg;
      var todo := targets;
      AddToNone(any0, elapsed);
      AddToNone(fg0, elapsed);
      assert live - todo == {} && fg - todo == {};
      while todo != {}
        invariant todo <= targets && lastTick == Some(now)
        invariant usageSeconds == AddToAll(any0, live - todo, elapsed)
        invariant usageFg == AddToAll(fg0, fg - todo, elapsed)
      {
        var uid := Pick(todo);
        AddToOneMore(any0, live - todo, uid, elapsed);
        AddToOneMore(fg0, fg - todo, uid, elapsed);
        assert live - (todo - {uid}) == if uid in live then (live - todo) + {uid} else live - todo;
        assert fg - (todo - {uid}) == if uid in fg then (fg - todo) + {uid} else fg - todo;
        todo := todo - {uid};
        if uid in live {
          usageSeconds := usageSeconds[uid := Get(usageSeconds, uid) + elapsed];
        }
        if uid in fg {
          usageFg := usageFg[uid := Get(usageFg, uid) + elapsed];
        }
      }
      assert live - {} == live && fg - {} == fg;
    }

    method MaintainUidCooldown(uid: Uid, d: DurationRule, now: nat)
      modifies this`cooldownUntil, this`usageSeconds, this`usageFg
      ensures Snapshot().meters == MaintainUid(old(Snapshot().meters), uid, d, now)
    {
      if uid in cooldownUntil {
        if now < cooldownUntil[uid] {
          return;
        }
        cooldownUntil := cooldownUntil - {uid};
        usageSeconds := usageSeconds[uid := 0];
        usageFg := usageFg[uid := 0];
      }
      var used := Scoped(Get(usageSeconds, uid), Get(usageFg, uid), d.scope);
      if used >= d.limitMinutes * 60 {
        cooldownUntil := cooldownUntil[uid := now + d.freezeMinutes * 60];
      }
    }

    method MaintainGroupCooldown(g: GroupRule, now: nat)
      modifies this`groupCooldownUntil, this`usageSeconds, this`usageFg
      ensures Snapshot().meters == MaintainGroup(uidOf, old(Snapshot().meters), g, now)
    {
      if g.id in groupCooldownUntil {
        if now < groupCooldownUntil[g.id] {
          return;
        }
        groupCooldownUntil := groupCooldownUntil - {g.id};
        ghost var m := Snapshot().meters;
        assert g.members[..0] == [];
        for k := 0 to |g.members|
          invariant groupCooldownUntil == m.groupCooldownUntil
          invariant Snapshot().meters == ZeroMembers(uidOf, m, g.members[..k])
        {
          assert g.members[..k + 1][..k] == g.members[..k];
          if g.members[k] in uidOf {
            var uid := uidOf[g.members[k]];
            usageSeconds := usageSeconds[uid := 0];
            usageFg := usageFg[uid := 0];
          }
        }
        assert g.members[..|g.members|] == g.members;
      }
      var meters := Snapshot().meters;
      var used := PooledUsage(uidOf, meters, g.members, g.rules.duration.scope);
      if used >= g.rules.duration.limitMinutes * 60 {
        groupCooldownUntil := groupCooldownUntil[g.id := now + g.rules.duration.freezeMinutes * 60];
      }
    }

    /** Collects the jobs of all cooldown rules, then runs those per uid and those per pool. */
    method MaintainCooldowns(now: nat)
      modifies this`cooldownUntil, this`groupCooldownUntil, this`usageSeconds, this`usageFg
      ensures Snapshot().meters == Maintain(old(Snapshot().cfg), old(Snapshot().meters), now)
    {
      hide MaintainUid, MaintainGroup;
      var jobs := UidJobs(Snapshot().cfg);
      var pools := PoolJobs(rules.groups);
      ghost var m := Snapshot().meters;
      assert jobs[..0] == [] && pools[..0] == [];
      for k := 0 to |jobs|
        invariant Snapshot().meters == RunUidJobs(m, jobs[..k], now)
      {
        assert jobs[..k + 1][..k] == jobs[..k];
        MaintainUidCooldown(jobs[k].uid, jobs[k].d, now);
      }
      assert jobs[..|jobs|] == jobs;
      ghost var mid := Snapshot().meters;
      for k := 0 to |pools|
        invariant Snapshot().meters == RunPoolJobs(uidOf, mid, pools[..k], now)
      {
        assert pools[..k + 1][..k] == pools[..k];
        MaintainGroupCooldown(pools[k], now);
      }
      assert pools[..|pools|] == pools;
    }

    /** The wanted state per uid and the names that identify each blocked uid. */
    method ComputeWant(now: nat, off: bool) returns (want: map<Uid, bool>, names: map<Uid, seq<string>>)
      ensures want == WantOf(Verdicts(Snapshot(), now, off))
      ensures names == BlockIndex(Verdicts(Snapshot(), now, off))
      ensures forall u :: u in want && want[u] <==> Blocked(Snapshot(), u, now, off)
    {
      hide AppVerdicts, GroupVerdicts, MemberVerdicts, WantOf, NamesOf, Blocked;
      var c := Snapshot();
      AllWantedIff(c, now, off);
      want, names := AppWants(c, now, off);
      ghost var vs := AppVerdicts(c, rules.apps, now, off);
      NoGroupVerdicts(c, now, off, vs);
      assert rules.groups[..0] == [];
      ghost var apps := vs;
      for j := 0 to |rules.groups|
        invariant vs == apps + GroupVerdicts(c, rules.groups[..j], now, off)
        invariant want == WantOf(vs) && names == NamesOf(vs)
      {
        want, names := MemberWants(c, rules.groups[j], now, off, vs, want, names);
        OneMoreGroupVerdicts(c, rules.groups[..j], rules.groups[j], now, off);
        assert rules.groups[..j + 1] == rules.groups[..j] + [rules.groups[j]];
        vs := vs + MemberVerdicts(c, rules.groups[j], rules.groups[j].members, now, off);
      }
      assert rules.groups[..|rules.groups|] == rules.groups;
      names := SortNames(names);
    }

    /** The pass over the app rules. */
    method AppWants(c: Core, now: nat, off: bool) returns (want: map<Uid, bool>, names: map<Uid, seq<string>>)
      ensures want == WantOf(AppVerdicts(c, c.cfg.rules.apps, now, off))
      ensures names == NamesOf(AppVerdicts(c, c.cfg.rules.apps, now, off))
    {
      hide AppDecision, Blockable, WantOf, NamesOf, AddName;
      var apps := c.cfg.rules.apps;
      want, names := map[], map[];
      ghost var vs: seq<Verdict> := [];
      NoVerdicts();
      for i := 0 to |apps|
        invariant vs == AppVerdicts(c, apps[..i], now, off)
        invariant want == WantOf(vs) && names == NamesOf(vs)
      {
        assert apps[..i + 1][..i] == apps[..i];
        var a := apps[i];
        if Blockable(c.cfg, a.key) {
          BlockableResolves(c.cfg, a.key);
          var uid := c.cfg.uidOf[a.key];
          var v := Verdict(uid, a.key, AppDecision(c, a, uid, now, off));
          want, names := want[v.uid := v.block], AddName(names, v);
          VerdictRecorded(vs, v);
          vs := vs + [v];
        }
      }
      assert apps[..|apps|] == apps;
    }

    /** The pass over the members of one group, after the verdicts so far. */
    method MemberWants(c: Core, g: GroupRule, now: nat, off: bool, ghost before: seq<Verdict>,
                       want0: map<Uid, bool>, names0: map<Uid, seq<string>>)
      returns (want: map<Uid, bool>, names: map<Uid, seq<string>>)
      requires want0 == WantOf(before) && names0 == NamesOf(before)
      ensures want == WantOf(before + MemberVerdicts(c, g, g.members, now, off))
      ensures names == NamesOf(before + MemberVerdicts(c, g, g.members, now, off))
    {
      hide GroupDecision, Blockable, WantOf, NamesOf, AddName;
      want, names := want0, names0;
      ghost var vs := before;
      assert vs == before + MemberVerdicts(c, g, g.members[..0], now, off);
      for k := 0 to |g.members|
        invariant vs == before + MemberVerdicts(c, g, g.members[..k], now, off)
        invariant want == WantOf(vs) && names == NamesOf(vs)
      {
        assert g.members[..k + 1][..k] == g.members[..k];
        var m := g.members[k];
        if Blockable(c.cfg, m) {
          BlockableResolves(c.cfg, m);
          var uid := c.cfg.uidOf[m];
          var v := Verdict(uid, m, GroupDecision(c, g, uid, now, off));
          want, names := want[v.uid := v.block], AddName(names, v);
          VerdictRecorded(vs, v);
          vs := vs + [v];
        }
      }
      assert g.members[..|g.members|] == g.members;
    }

    /** Brings the block list to the wanted state, uid by uid in hash order. It stops at the first
        update that fails, with the three copies still equal and every uid either as before or as
        wanted. It succeeds exactly when every update that has to be made works. */
    method ApplyTransitions(want: map<Uid, bool>, works: Uid -> bool) returns (ok: bool)
      requires Valid() && forall u | u in want :: u >= FIRST_APP_UID
      modifies this`blocked, gate`blockMap, gate`mirror
      ensures Valid()
      ensures ok <==> ChangesWork(old(blocked), BlockSet(want), works)
      ensures ok ==> blocked == BlockSet(want)
      ensures forall u :: (u in blocked) == (u in old(blocked)) || (u in blocked) == (u in want && want[u])
    {
      var todo := want.Keys;
      while todo != {}
        invariant todo <= want.Keys && Valid()
        invariant forall u :: (u in blocked) == (if u in want && u !in todo then want[u] else u in old(blocked))
        invariant forall u | (u in old(blocked)) != (u in blocked) :: works(u)
      {
        var uid := Pick(todo);
        if want[uid] != (uid in blocked) {
          var done := gate.SetBlocked(uid, want[uid], works(uid));
          if !done {
            return false;
          }
          blocked := if want[uid] then blocked + {uid} else blocked - {uid};
        }
        todo := todo - {uid};
      }
      ghost var settled := blocked;
      var current := blocked;
      while current != {}
        invariant current <= settled && Valid()
        invariant forall u :: (u in blocked) == (u in settled && (u in want || u in current))
        invariant forall u | (u in old(blocked)) != (u in blocked) :: works(u)
      {
        var uid := Pick(current);
        if uid !in want {
          var done := gate.SetBlocked(uid, false, works(uid));
          if !done {
            return false;
          }
          blocked := blocked - {uid};
        }
        current := current - {uid};
      }
      return true;
    }

    /** The bookkeeping of a tick. */
    method Bookkeep(now: nat, s: Sample)
      modifies this`lastDay, this`lastTick, this`usageSeconds, this`usageFg, this`extensionUntil,
               this`groupExtensionUntil, this`extGrantedToday, this`groupExtGrantedToday, this`cooldownUntil,
               this`groupCooldownUntil
      ensures Snapshot() == TickCore(old(Snapshot()), now, s)
    {
      hide Accumulate, Maintain, DailyReset;
      ResetKeepsConfig(Snapshot(), now);
      ResetDay(now);
      AccumulateUsage(now, s);
      MaintainCooldowns(now);
    }

    /** The state file after a tick: written a minute after the last time, unless the tick failed. */
    twostate predicate SavedAtTick(ok: bool, now: nat, saveOk: bool)
      reads this, disk`state
    {
      if ok && now - old(lastSave) >= 60
      then lastSave == now
           && disk.state == if saveOk then Some(Restart.SaveState(Snapshot(), now)) else old(disk.state)
      else lastSave == old(lastSave) && disk.state == old(disk.state)
    }

    /** The bookkeeping and the block list update of a tick. */
    method TickBody(now: nat, s: Sample, works: Uid -> bool, saveOk: bool) returns (ok: bool)
      requires Valid()
      modifies this, gate, disk`state
      ensures Valid()
      ensures Snapshot() == TickCore(old(Snapshot()), now, s)
      ensures rulesSource == old(rulesSource)
      ensures gate.identity == BlockIndex(Verdicts(Snapshot(), now, SeenScreenOff(rules, s)))
      ensures ok <==> ChangesWork(old(blocked), TickBlocks(old(Snapshot()), now, s), works)
      ensures ok ==> blocked == TickBlocks(old(Snapshot()), now, s)
      ensures forall u ::
        (u in blocked) == (u in old(blocked)) || (u in blocked) == (u in TickBlocks(old(Snapshot()), now, s))
      ensures SavedAtTick(ok, now, saveOk)
    {
      hide TickCore, Verdicts, WantOf, BlockIndex, SeenScreenOff, ChangesWork, Restart.SaveState;
      TickKeepsRules(Snapshot(), now, s);
      Bookkeep(now, s);
      var off := SeenScreenOff(rules, s);
      var want, names := ComputeWant(now, off);
      gate.SetBlockIndex(names);
      forall u | u in want ensures u >= FIRST_APP_UID {
        WantedUidsAreApps(Snapshot(), now, off, u);
      }
      ok := ApplyTransitions(want, works);
      if ok && now - lastSave >= STATE_SAVE_SECS {
        SaveState(now, saveOk);
      }
    }

    /** Follows changed rules, then a changed package list. */
    method Refresh(env: TickEnv) returns (ok: bool, ghost order: seq<string>)
      modifies this`rules, this`rulesSource, this`zone, this`protectedPkgs, this`uidOf, this`usageSeconds, this`usageFg,
               this`extensionUntil, this`extGrantedToday, this`cooldownUntil, this`groupCooldownUntil, disk`backup
      ensures ok == Readable(env)
      ensures Stored() ==
        if env.reload.Some? then RulesStore.ReloadRules(old(Stored()), env.reload.value.copyOk) else old(Stored())
      ensures ok ==> OrderOf(env, order) && Snapshot() == Prepared(old(Snapshot()), rules, env, order)
    {
      hide RulesStore.ReloadRules, DropToggled, Synced, Listing;
      order := [];
      if env.reload.Some? {
        ok := Reload(env.reload.value);
        if !ok {
          return;
        }
        assert Snapshot() == Reloaded(old(Snapshot()), ConfigOf(rules, env.reload.value));
      }
      ok, order := SyncPackages(env.packages);
    }

    /** Periodic work. The three copies of the block list agree afterwards whatever failed on the way. A
        tick that cannot read its inputs changes no block; one whose update fails leaves every uid as
        before or as wanted; one that succeeds leaves exactly the wanted uids blocked, each with its
        names. It succeeds exactly when its inputs can be read and every update it has to make works; a
        minute after the last time it also writes the state file. */
    method Tick(env: TickEnv) returns (ok: bool, ghost order: seq<string>)
      requires Valid()
      modifies this, gate, disk`backup, disk`state
      ensures Valid()
      ensures ok ==>
        var off := SeenScreenOff(rules, env.sample);
        && Readable(env)
        && blocked == WantedBlocks(Snapshot(), env.now, off)
        && (forall u :: u in blocked <==> Blocked(Snapshot(), u, env.now, env.sample.screenOff))
        && ((forall key | key in uidOf :: PackageOf(key).Some?) ==> AllNamed(blocked, gate.identity))
      ensures Stored() ==
        if env.reload.Some? then RulesStore.ReloadRules(old(Stored()), env.reload.value.copyOk) else old(Stored())
      ensures !Readable(env) ==> !ok && blocked == old(blocked) && gate.identity == old(gate.identity)
      ensures SavedAtTick(ok, env.now, env.saveOk)
      ensures Readable(env) ==>
        var off := SeenScreenOff(rules, env.sample);
        && (ok <==> ChangesWork(old(blocked), WantedBlocks(Snapshot(), env.now, off), env.works))
        && OrderOf(env, order)
        && Snapshot() == TickCore(Prepared(old(Snapshot()), rules, env, order), env.now, env.sample)
        && gate.identity == BlockIndex(Verdicts(Snapshot(), env.now, off))
        && (forall u, name :: u in gate.identity && name in gate.identity[u] <==>
              BlockedAs(Snapshot(), u, name, env.now, env.sample.screenOff))
        && forall u ::
             (u in blocked) == (u in old(blocked)) || (u in blocked) == (u in WantedBlocks(Snapshot(), env.now, off))
    {
      hide TickCore, WantedBlocks, BlockIndex, Verdicts, SeenScreenOff, Prepared, AllNamed, OrderOf,
           RulesStore.ReloadRules, ChangesWork, Restart.SaveState, Blocked, BlockedAs;
      ok, order := Refresh(env);
      if !ok {
        return;
      }
      ghost var c := Snapshot();
      ok := TickBody(env.now, env.sample, env.works, env.saveOk);
      TickKeepsRules(c, env.now, env.sample);
      AllBlockedIff(Snapshot(), env.now, env.sample);
      if ok {
        TickNamesBlocked(Snapshot(), env.now, SeenScreenOff(rules, env.sample));
      }
    }

    // ---------- extensions ----------

    method AddExtension(key: string, minutes: nat, now: nat) returns (grant: Grant)
      modifies this`extensionUntil, this`groupExtensionUntil, this`extGrantedToday, this`groupExtGrantedToday
      ensures (Snapshot(), grant) == EngineState.AddExtension(old(Snapshot()), key, minutes, now)
    {
      hide HasApp, GroupOfMember, HasGroup;
      if !HasApp(rules.apps, key) {
        var group := GroupOfMember(rules.groups, key);
        if group.Some? {
          return ManagedByGroup(group.value);
        }
      }
      if key in uidOf {
        var uid := uidOf[key];
        var used := Get(extGrantedToday, uid);
        if used >= EXTENSION_CAP {
          return LimitReached;
        }
        var add := Min(minutes, EXTENSION_CAP - used);
        extGrantedToday := extGrantedToday[uid := used + add];
        var base := Max(Get(extensionUntil, uid), now);
        extensionUntil := extensionUntil[uid := base + add * 60];
        return Granted(add);
      }
      if HasGroup(rules.groups, key) {
        var used := Get(groupExtGrantedToday, key);
        if used >= EXTENSION_CAP {
          return LimitReached;
        }
        var add := Min(minutes, EXTENSION_CAP - used);
        groupExtGrantedToday := groupExtGrantedToday[key := used + add];
        var base := Max(Get(groupExtensionUntil, key), now);
        groupExtensionUntil := groupExtensionUntil[key := base + add * 60];
        return Granted(add);
      }
      return UnknownKey;
    }
  }

  // ---------- lemmas for the methods ----------

  lemma AddToNone(m: map<Uid, nat>, secs: nat)
    ensures AddToAll(m, {}, secs) == m
  {}

  lemma AddToOneMore(m: map<Uid, nat>, done: set<Uid>, uid: Uid, secs: nat)
    requires uid !in done
    ensures var added := AddToAll(m, done, secs);
      AddToAll(m, done + {uid}, secs) == added[uid := Get(added, uid) + secs]
  {}

  function AddName(names: map<Uid, seq<string>>, v: Verdict): map<Uid, seq<string>> {
    var pkg := PackageOf(v.key);
    if v.block && pkg.Some?
    then names[v.uid := (if v.uid in names then names[v.uid] else []) + [pkg.value]]
    else names
  }

  lemma VerdictRecorded(vs: seq<Verdict>, v: Verdict)
    ensures WantOf(vs + [v]) == WantOf(vs)[v.uid := v.block]
    ensures NamesOf(vs + [v]) == AddName(NamesOf(vs), v)
  {
    assert (vs + [v])[..|vs|] == vs;
  }

  lemma NoVerdicts()
    ensures WantOf([]) == map[] && NamesOf([]) == map[]
  {}

  lemma NoGroupVerdicts(c: Core, now: nat, off: bool, vs: seq<Verdict>)
    ensures vs == vs + GroupVerdicts(c, [], now, off)
  {}

  lemma OneMoreGroupVerdicts(c: Core, groups: seq<GroupRule>, g: GroupRule, now: nat, off: bool)
    ensures GroupVerdicts(c, groups + [g], now, off)
         == GroupVerdicts(c, groups, now, off) + MemberVerdicts(c, g, g.members, now, off)
  {
    assert (groups + [g])[..|groups|] == groups;
  }

  lemma BlockableResolves(cfg: Config, key: string)
    requires Blockable(cfg, key)
    ensures key in cfg.uidOf
  {}

  lemma OneMoreGroup(before: seq<GroupRule>, g: GroupRule, groups: seq<GroupRule>, uidOf: map<string, Uid>)
    ensures ToggledIds(before + [g], groups) == ToggledIds(before, groups) + (if Toggled(g, groups) then {g.id} else {})
    ensures ToggledUids(before + [g], groups, uidOf) == ToggledUids(before, groups, uidOf)
      + (if Toggled(g, groups)
         then set m | m in FindGroup(groups, g.id).value.members && m in uidOf :: uidOf[m] else {})
  {}

  lemma AllWantedIff(c: Core, now: nat, off: bool)
    ensures var want := WantOf(Verdicts(c, now, off));
      forall u :: u in want && want[u] <==> Blocked(c, u, now, off)
  {
    hide Verdicts, WantOf, Blocked;
    forall u ensures u in WantedBlocks(c, now, off) <==> Blocked(c, u, now, off) {
      WantedIff(c, u, now, off);
    }
  }

  lemma AllBlockedIff(c: Core, now: nat, s: Sample)
    ensures var off := SeenScreenOff(c.cfg.rules, s);
      && (forall u :: u in WantedBlocks(c, now, off) <==> Blocked(c, u, now, s.screenOff))
      && var index := BlockIndex(Verdicts(c, now, off));
         forall u, name :: u in index && name in index[u] <==> BlockedAs(c, u, name, now, s.screenOff)
  {
    hide WantedBlocks, BlockIndex, Verdicts, Blocked, BlockedAs, SeenScreenOff;
    var index := BlockIndex(Verdicts(c, now, SeenScreenOff(c.cfg.rules, s)));
    forall u ensures u in WantedBlocks(c, now, SeenScreenOff(c.cfg.rules, s)) <==> Blocked(c, u, now, s.screenOff) {
      BlockedIff(c, u, now, s);
    }
    forall u, name ensures u in index && name in index[u] <==> BlockedAs(c, u, name, now, s.screenOff) {
      NamesIff(c, u, now, s);
    }
  }

  lemma ResetKeepsConfig(c: Core, now: nat)
    ensures DailyReset(c, now).cfg == c.cfg && DailyReset(c, now).lastTick == c.lastTick
  {}

  lemma TickKeepsRules(c: Core, now: nat, s: Sample)
    ensures TickCore(c, now, s).cfg == c.cfg
    ensures TickBlocks(c, now, s) == WantedBlocks(TickCore(c, now, s), now, SeenScreenOff(c.cfg.rules, s))
  {
    hide Accumulate, Maintain, WantedBlocks;
  }

  ghost predicate AllNamed(blocked: set<Uid>, index: map<Uid, seq<string>>) {
    forall u | u in blocked :: u in index && index[u] != [] && Ascending(index[u], StringLess)
  }

  lemma TickNamesBlocked(c: Core, now: nat, off: bool)
    ensures (forall key | key in c.cfg.uidOf :: PackageOf(key).Some?) ==>
      AllNamed(WantedBlocks(c, now, off), BlockIndex(Verdicts(c, now, off)))
  {
    hide WantedBlocks, BlockIndex, Verdicts;
    if forall key | key in c.cfg.uidOf :: PackageOf(key).Some? {
      forall u | u in WantedBlocks(c, now, off) {
        BlockedUidsAreNamed(c, now, off, u);
      }
    }
  }

  lemma WantedUidsAreApps(c: Core, now: nat, off: bool, u: Uid)
    requires u in WantOf(Verdicts(c, now, off))
    ensures u >= FIRST_APP_UID
  {
    var vs := Verdicts(c, now, off);
    WantComesFromAVerdict(vs, u);
    AppVerdictsKeys(c, c.cfg.rules.apps, now, off);
    GroupVerdictsKeys(c, c.cfg.rules.groups, now, off);
  }
}
