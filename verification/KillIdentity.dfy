/** From rules to kills: a killed process is one of a package that a rule blocked for its uid. */
module KillIdentity {
  import opened Rules
  import opened EngineState
  import opened Wants
  import opened Packages
  import opened Cmdline
  import opened KillProtocol
  import opened KillEvents
  import opened KillHistory

  /** At every moment the killer's name index is one that the engine computed from its verdicts. */
  ghost predicate Indexed(states: seq<State>, verdicts: seq<seq<Verdict>>) {
    && |verdicts| == |states|
    && forall n | 0 <= n < |states| :: states[n].index == BlockIndex(verdicts[n])
  }

  /** Some time in the run a verdict blocked the package of this name for the uid. */
  ghost predicate BlockedByName(verdicts: seq<seq<Verdict>>, u: Uid, name: string) {
    exists n | 0 <= n < |verdicts| :: Named(verdicts[n], u, name)
  }

  /** The process carried the name of a package blocked for the entry's uid. */
  ghost predicate KilledByName(states: seq<State>, verdicts: seq<seq<Verdict>>, e: Pending, born: nat) {
    exists name :: BlockedByName(verdicts, e.uid, name) && Sometime(states, e, born, Carries(name))
  }

  /** Every killed process had its pid and uid reported by an event, and either carried, at some time while
      it was pinned, the name of a package whose verdict blocked the uid of its event, or could not be read
      twenty times. */
  lemma KillsHitBlockedNames(states: seq<State>, actions: seq<Action>, verdicts: seq<seq<Verdict>>)
    requires IsTrace(states, actions) && Init(states[0]) && Indexed(states, verdicts)
    ensures forall k | k in states[|actions|].kills ::
      && IsReported(states, actions, k.entry, k.born)
      && (KilledByName(states, verdicts, k.entry, k.born) || NeverReadable(states, actions, k.entry, k.born))
  {
    hide IsReported, IsTrace, Init, NeverReadable, Sometime, Indexed, KilledByName;
    TraceLength(states, actions);
    KillsAreGrounded(states, actions);
    forall k | k in states[|actions|].kills && !NeverReadable(states, actions, k.entry, k.born)
      ensures KilledByName(states, verdicts, k.entry, k.born)
    {
      var names :| names != [] && Sometime(states, k.entry, k.born, Names(names))
        && CarriesOne(states, k.entry, k.born, names);
      var name :| name in names && Sometime(states, k.entry, k.born, Carries(name));
      ListedNamesAreBlocked(states, verdicts, k.entry, k.born, names, name);
      CarriedAndBlocked(states, verdicts, k.entry, k.born, name);
    }
  }

  lemma TraceLength(states: seq<State>, actions: seq<Action>)
    requires IsTrace(states, actions)
    ensures |states| == |actions| + 1
  {}

  lemma CarriedAndBlocked(states: seq<State>, verdicts: seq<seq<Verdict>>, e: Pending, born: nat, name: string)
    requires BlockedByName(verdicts, e.uid, name) && Sometime(states, e, born, Carries(name))
    ensures KilledByName(states, verdicts, e, born)
  {}

  lemma ListedNamesAreBlocked(states: seq<State>, verdicts: seq<seq<Verdict>>, e: Pending, born: nat,
                              names: seq<string>, name: string)
    requires Indexed(states, verdicts) && name in names && Sometime(states, e, born, Names(names))
    ensures BlockedByName(verdicts, e.uid, name)
  {
    hide BlockIndex, Named;
    var n :| 0 <= n < |states| && Shows(states[n], e, born, Names(names));
    BlockIndexSpec(verdicts[n], e.uid);
  }

  // ---------- packages ----------

  /** Whenever the process's name can be read, it is read from a command line of the package. */
  ghost predicate RunsPackage(states: seq<State>, born: nat, pkg: string) {
    forall n, pid | 0 <= n < |states| && pid in states[n].kernel.procs && states[n].kernel.procs[pid].born == born ::
      states[n].kernel.procs[pid].name.Some? ==> ReadFrom(states[n].kernel.procs[pid].name, pkg)
  }

  ghost predicate ReadFrom(name: Option<string>, pkg: string) {
    exists helper: Option<string>, arguments ::
      (helper.Some? ==> NUL !in helper.value) && name == PkgFromCmdline(CmdlineOf(pkg, helper, arguments))
  }

  /** The keys that verdicts are about are keys of packages. */
  ghost predicate PackageKeys(verdicts: seq<seq<Verdict>>) {
    forall n, v | 0 <= n < |verdicts| && v in verdicts[n] :: IsPackageKey(v.key)
  }

  ghost predicate IsPackageKey(key: string) {
    exists user: nat, pkg :: CleanName(pkg) && key == UserKey(user, pkg)
  }

  /** Some time in the run a verdict blocked the package, under one of its users' keys, for the uid. */
  ghost predicate PackageBlocked(verdicts: seq<seq<Verdict>>, u: Uid, pkg: string) {
    exists n, v, user: nat | 0 <= n < |verdicts| && v in verdicts[n] ::
      v.uid == u && v.block && v.key == UserKey(user, pkg)
  }

  /** A process of a package is killed only if a verdict blocked that very package for the uid of its event,
      or if its name could not be read twenty times: never because of another package with the uid. */
  lemma KillsHitBlockedPackages(states: seq<State>, actions: seq<Action>, verdicts: seq<seq<Verdict>>, k: Kill,
                                pkg: string)
    requires IsTrace(states, actions) && Init(states[0]) && Indexed(states, verdicts) && PackageKeys(verdicts)
    requires k in states[|actions|].kills && CleanName(pkg) && RunsPackage(states, k.born, pkg)
    ensures IsReported(states, actions, k.entry, k.born)
    ensures PackageBlocked(verdicts, k.entry.uid, pkg) || NeverReadable(states, actions, k.entry, k.born)
  {
    hide IsReported, IsTrace, Init, NeverReadable, Indexed, PackageKeys, CleanName, RunsPackage, BlockedByName;
    hide PackageBlocked, Sometime;
    TraceLength(states, actions);
    KillsHitBlockedNames(states, actions, verdicts);
    if !NeverReadable(states, actions, k.entry, k.born) {
      var name :| BlockedByName(verdicts, k.entry.uid, name) && Sometime(states, k.entry, k.born, Carries(name));
      CarriedIsOwnName(states, k.entry, k.born, pkg, name);
      BlockedNameIsPackage(verdicts, k.entry.uid, pkg);
    }
  }

  lemma CarriedIsOwnName(states: seq<State>, e: Pending, born: nat, pkg: string, name: string)
    requires RunsPackage(states, born, pkg) && CleanName(pkg) && Sometime(states, e, born, Carries(name))
    ensures name == pkg
  {
    hide CleanName, CmdlineOf, PkgFromCmdline;
    var n :| 0 <= n < |states| && Shows(states[n], e, born, Carries(name));
    assert ReadFrom(Some(name), pkg);
    var helper: Option<string>, arguments :| (helper.Some? ==> NUL !in helper.value)
      && Some(name) == PkgFromCmdline(CmdlineOf(pkg, helper, arguments));
    ProcessCarriesItsName(pkg, helper, arguments);
  }

  lemma BlockedNameIsPackage(verdicts: seq<seq<Verdict>>, u: Uid, pkg: string)
    requires PackageKeys(verdicts) && BlockedByName(verdicts, u, pkg)
    ensures PackageBlocked(verdicts, u, pkg)
  {
    hide UserKey, PackageOf, CleanName;
    var n :| 0 <= n < |verdicts| && Named(verdicts[n], u, pkg);
    var v :| v in verdicts[n] && Contributes(v, u, pkg);
    assert IsPackageKey(v.key);
    var user: nat, other :| CleanName(other) && v.key == UserKey(user, other);
    PackageOfUserKey(user, other);
  }
}
