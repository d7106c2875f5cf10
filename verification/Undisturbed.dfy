/** The killer's pass as one action: when no other thread and no process interferes, the steps of the
    protocol do to the pending list exactly what the in-place pass does. */
module Undisturbed {
  import opened Rules
  import opened KillProtocol
  import opened GateThreads

  /** A system call that works; a pass opens no descriptor, so the number does not matter. */
  const WORKS := Succeeds(0)

  /** The killer thread takes n steps alone and its system calls work. */
  ghost function Steps(s: State, n: nat): State
    decreases n
  {
    if n == 0 then s else Steps(KillerStep(s, WORKS), n - 1)
  }

  lemma {:induction false} StepsAdd(s: State, n: nat, m: nat)
    ensures Steps(s, n + m) == Steps(Steps(s, n), m)
    decreases n
  {
    hide KillerStep;
    if n == 0 {
    } else {
      StepsAdd(KillerStep(s, WORKS), n - 1, m);
    }
  }

  /** What a visit finds out about an entry in this state. */
  ghost function LookOf(s: State, e: Pending): Look {
    var names, name := NamesFor(s.index, e.uid), ReadNameOf(s.kernel, e.pid).name;
    Look(
      e.fd in s.kernel.fds && !RunningSomewhere(s.kernel, s.kernel.fds[e.fd]),
      if e.pid in s.kernel.procs then Some(s.kernel.procs[e.pid].oom) else None,
      if s.clock < e.since then 0 else s.clock - e.since,
      e.uid in s.mirror,
      names != [] && (name.None? || name.value in names))
  }

  /** Reading the name over and over gives the same answer, so the twenty tries decide as one look. */
  lemma {:induction false} NameLoop(s: State, i: nat, ev: Evidence) returns (n: nat, last: Evidence)
    requires s.stage == ReadName(i, ev) && i < |s.pending| && |ev.seen| < IDENTITY_TRIES
    requires ev.index == s.index && NamesFor(s.index, s.pending[i].uid) != []
    requires forall r | r in ev.seen :: r == ReadNameOf(s.kernel, s.pending[i].pid)
    requires ev.seen != [] ==> !Named(s, s.pending[i])
    ensures Steps(s, n) ==
      if LookOf(s, s.pending[i]).identified then s.(stage := Signal(i, last)) else Finish(s, i)
    decreases IDENTITY_TRIES - |ev.seen|
  {
    hide NamesFor, ReadNameOf, Finish, RunningSomewhere;
    var e := s.pending[i];
    var read := ReadNameOf(s.kernel, e.pid);
    last := ev.(seen := ev.seen + [read]);
    assert AllUnreadable(last.seen) == read.name.None? by {
      assert last.seen[|ev.seen|] == read;
    }
    if !Named(s, e) && |last.seen| < IDENTITY_TRIES {
      var next := s.(stage := ReadName(i, last));
      assert KillerStep(s, WORKS) == next;
      var m, l := NameLoop(next, i, last);
      FinishIgnoresStage(s, next.stage, i);
      n, last := m + 1, l;
    } else {
      assert KillerStep(s, WORKS) ==
        if Named(s, e) || read.name.None? then s.(stage := Signal(i, last)) else Finish(s, i);
      n := 1;
      assert Steps(s, 1) == Steps(KillerStep(s, WORKS), 0);
    }
  }

  /** The process's name is one of those listed. */
  predicate Named(s: State, e: Pending) {
    var name := ReadNameOf(s.kernel, e.pid).name;
    name.Some? && name.value in NamesFor(s.index, e.uid)
  }

  lemma FinishIgnoresStage(s: State, stage: Stage, i: nat)
    requires i < |s.pending|
    ensures Finish(s.(stage := stage), i) == Finish(s, i)
  {
    hide SwapRemove;
  }

  /** The effect of one visit. */
  ghost function Visited(s: State, i: nat, ev: Evidence): State
    requires i < |s.pending| && s.pending[i].fd in s.kernel.fds
  {
    var e := s.pending[i];
    match FateOf(LookOf(s, e))
    case Waiting => s.(stage := Poll(i + 1))
    case Killed => Finish(Signalled(s, i, ev), i)
    case _ => Finish(s, i)
  }

  lemma OneStep(s: State)
    ensures Steps(s, 1) == KillerStep(s, WORKS)
  {
    hide KillerStep;
    assert Steps(s, 1) == Steps(KillerStep(s, WORKS), 0);
  }

  /** From the name check on: signal and close, or close only. */
  lemma CheckNames(s: State, i: nat, ev: Evidence) returns (n: nat, last: Evidence)
    requires s.stage == FetchNames(i, ev) && i < |s.pending| && ev.seen == []
    requires var e := s.pending[i]; e.fd in s.kernel.fds && !LookOf(s, e).exited
    ensures var e := s.pending[i];
      Steps(s, n) ==
        if LookOf(s, e).identified then Finish(Signalled(s, i, last), i)
        else Finish(s, i)
  {
    hide Finish, ReadNameOf, NamesFor, RunningSomewhere;
    var e, ev1 := s.pending[i], ev.(index := s.index);
    OneStep(s);
    n, last := 1, ev1;
    if NamesFor(s.index, e.uid) != [] {
      var reading := s.(stage := ReadName(i, ev1));
      assert KillerStep(s, WORKS) == reading;
      var m, l := NameLoop(reading, i, ev1);
      StepsAdd(s, 1, m);
      FinishIgnoresStage(s, reading.stage, i);
      n, last := 1 + m, l;
      if LookOf(s, e).identified {
        var signalling := s.(stage := Signal(i, last));
        assert Steps(s, n) == signalling;
        SignalAndClose(signalling, i, last);
        FinishIgnoresStage(Signalled(s, i, last), signalling.stage, i);
        StepsAdd(s, n, 2);
        n := n + 2;
      }
    }
  }

  /** The state in which the signal has been sent. */
  ghost function Signalled(s: State, i: nat, ev: Evidence): State
    requires i < |s.pending| && s.pending[i].fd in s.kernel.fds
  {
    var e := s.pending[i];
    s.(kills := s.kills + [Kill(s.kernel.fds[e.fd], e, ev)])
  }

  lemma SignalStep(s: State, i: nat, ev: Evidence)
    requires s.stage == Signal(i, ev) && i < |s.pending|
    requires var e := s.pending[i]; e.fd in s.kernel.fds && RunningSomewhere(s.kernel, s.kernel.fds[e.fd])
    ensures KillerStep(s, WORKS) == Signalled(s, i, ev).(stage := CloseFd(i))
  {
    hide Finish, RunningSomewhere;
  }

  lemma CloseStep(s: State, i: nat)
    requires s.stage == CloseFd(i) && i < |s.pending|
    ensures KillerStep(s, WORKS) == Finish(s, i)
  {
    hide Finish, RunningSomewhere;
  }

  lemma SignalAndClose(s: State, i: nat, ev: Evidence)
    requires s.stage == Signal(i, ev) && i < |s.pending|
    requires var e := s.pending[i]; e.fd in s.kernel.fds && RunningSomewhere(s.kernel, s.kernel.fds[e.fd])
    ensures Steps(s, 2) == Finish(Signalled(s, i, ev), i)
  {
    hide Finish, RunningSomewhere, KillerStep, Steps;
    var closing := Signalled(s, i, ev).(stage := CloseFd(i));
    SignalStep(s, i, ev);
    CloseStep(closing, i);
    OneStep(s);
    OneStep(closing);
    StepsAdd(s, 1, 1);
    FinishIgnoresStage(Signalled(s, i, ev), CloseFd(i), i);
  }

  /** Undisturbed, the steps from one entry to the next are one visit. */
  lemma VisitRefines(s: State, i: nat) returns (n: nat, ev: Evidence)
    requires s.stage == Poll(i) && i < |s.pending| && s.pending[i].fd in s.kernel.fds
    ensures Steps(s, n) == Visited(s, i, ev)
  {
    hide Finish, ReadNameOf, NamesFor, RunningSomewhere;
    var e := s.pending[i];
    var look := LookOf(s, e);
    ev := Evidence(0, 0, look.ageMs, {}, map[], []);
    OneStep(s);
    n := 1;
    if !look.exited {
      var scoring := s.(stage := ReadOom(i));
      OneStep(scoring);
      StepsAdd(s, 1, 1);
      FinishIgnoresStage(s, ReadOom(i), i);
      n := 2;
      if look.oom.Some? && (look.oom.value == 0 || look.ageMs >= TIMEOUT_MS) {
        var ev0 := Evidence(s.kernel.procs[e.pid].born, look.oom.value, look.ageMs, {}, map[], []);
        var checking := s.(stage := CheckUid(i, ev0));
        assert Steps(s, 2) == checking;
        OneStep(checking);
        StepsAdd(s, 2, 1);
        FinishIgnoresStage(s, checking.stage, i);
        n := 3;
        if look.listed {
          var naming := s.(stage := FetchNames(i, ev0.(mirror := s.mirror)));
          assert Steps(s, 3) == naming;
          var m;
          m, ev := CheckNames(naming, i, ev0.(mirror := s.mirror));
          StepsAdd(s, 3, m);
          FinishIgnoresStage(s, naming.stage, i);
          FinishIgnoresStage(Signalled(s, i, ev), naming.stage, i);
          n := 3 + m;
        }
      }
    }
  }

  // ---------- the whole pass ----------

  /** The open descriptors are those of the pending entries, one each; every reachable state has this. */
  ghost predicate Held(s: State) {
    DistinctFds(s.pending) && s.kernel.fds.Keys == FdsOf(s.pending)
  }

  function EntriesOf(kills: seq<Kill>): seq<Pending> {
    seq(|kills|, i requires 0 <= i < |kills| => kills[i].entry)
  }

  /** How often an entry occurs in a list, if it has the given fate. */
  function Share(es: seq<Pending>, look: Pending -> Look, fate: Fate, e: Pending): nat {
    if FateOf(look(e)) == fate then multiset(es)[e] else 0
  }

  lemma {:induction false} FateShare(es: seq<Pending>, look: Pending -> Look, fate: Fate, e: Pending)
    ensures multiset(WithFate(es, look, fate))[e] == Share(es, look, fate, e)
  {
    hide FateOf, WithFate;
    if es == [] {
      NoneWithFate(look, fate);
    } else {
      var rest, x := es[..|es| - 1], es[|es| - 1];
      assert es == rest + [x];
      FateShare(rest, look, fate, e);
      VisitOne(rest, x, look);
      ShareSplits(es, rest, x, look, fate, e);
      assert multiset(WithFate(es, look, fate)) ==
        multiset(WithFate(rest, look, fate)) + (if FateOf(look(x)) == fate then multiset{x} else multiset{});
    }
  }

  lemma NoneWithFate(look: Pending -> Look, fate: Fate)
    ensures WithFate([], look, fate) == []
  {}

  lemma VisitKeepsOthers(s: State, i: nat, ev: Evidence)
    requires i < |s.pending| && Held(s) && s.pending[i].fd in s.kernel.fds
    ensures var r, fate := Visited(s, i, ev), FateOf(LookOf(s, s.pending[i]));
      && Held(r)
      && r.stage == (if fate == Waiting then Poll(i + 1) else Poll(i))
      && r.pending == (if fate == Waiting then s.pending else SwapRemove(s.pending, i))
      && EntriesOf(r.kills) == EntriesOf(s.kills) + (if fate == Killed then [s.pending[i]] else [])
      && (forall e: Pending | fate == Waiting || e.fd != s.pending[i].fd :: LookOf(r, e) == LookOf(s, e))
  {
    hide FateOf, SwapRemove, DistinctFds, FdsOf, LookOf;
    SwapRemoveFds(s.pending, i);
    var r, fate := Visited(s, i, ev), FateOf(LookOf(s, s.pending[i]));
    forall e: Pending | fate == Waiting || e.fd != s.pending[i].fd ensures LookOf(r, e) == LookOf(s, e) {
      SameLook(s, r, e);
    }
  }

  /** A look depends on the processes, the entry's own descriptor, the lists and the clock. */
  lemma SameLook(s: State, r: State, e: Pending)
    requires r.kernel.procs == s.kernel.procs
    requires (e.fd in r.kernel.fds) == (e.fd in s.kernel.fds)
    requires e.fd in s.kernel.fds ==> r.kernel.fds[e.fd] == s.kernel.fds[e.fd]
    requires r.mirror == s.mirror && r.index == s.index && r.clock == s.clock
    ensures LookOf(r, e) == LookOf(s, e)
  {
    forall born ensures RunningSomewhere(r.kernel, born) == RunningSomewhere(s.kernel, born) {}
  }

  /** The protocol's pass from entry i on, undisturbed: the entries that wait are left, the entries
      whose fate is a kill are killed, and nothing else is. */
  lemma {:induction false} PassRefines(s: State, i: nat, look: Pending -> Look) returns (n: nat)
    requires s.stage == Poll(i) && i <= |s.pending| && Held(s)
    requires forall e | e in s.pending[i..] :: look(e) == LookOf(s, e)
    ensures Steps(s, n).stage == Receive && PassResult(s, i, look, Steps(s, n))
    decreases |s.pending| - i
  {
    hide FateOf, LookOf, SwapRemove, Visited, Held, KillerStep, EntriesOf, PassResult;
    if i == |s.pending| {
      PassEnd(s, i);
      return 1;
    }
    FdOfMember(s.pending, i);
    HeldFds(s);
    var here := s.pending[i];
    assert here in s.pending[i..] by { assert here == s.pending[i..][0]; }
    var m, ev := VisitRefines(s, i);
    VisitKeepsOthers(s, i, ev);
    SwapRemoveFrom(s.pending, i);
    var next, j := Visited(s, i, ev), if FateOf(look(here)) == Waiting then i + 1 else i;
    StillSeen(s, i, next, j, look);
    var k := PassRefines(next, j, look);
    StepsAdd(s, m, k);
    n := m + k;
    VisitCounts(s, i, next, j, look, Steps(next, k));
  }

  /** The rest of the pass leaves what was already kept and what waits, and adds the kills. */
  ghost predicate PassResult(s: State, i: nat, look: Pending -> Look, r: State)
    requires i <= |s.pending|
  {
    && (forall e :: multiset(r.pending)[e] == multiset(s.pending[..i])[e] + Share(s.pending[i..], look, Waiting, e))
    && (forall e ::
          multiset(EntriesOf(r.kills))[e] == multiset(EntriesOf(s.kills))[e] + Share(s.pending[i..], look, Killed, e))
  }

  /** What one visit does to the list and the kills, for a pass that goes on at entry j. */
  ghost predicate OneVisit(s: State, i: nat, next: State, j: nat, fate: Fate)
    requires i < |s.pending|
  {
    && j == (if fate == Waiting then i + 1 else i)
    && next.pending == (if fate == Waiting then s.pending else SwapRemove(s.pending, i))
    && EntriesOf(next.kills) == EntriesOf(s.kills) + (if fate == Killed then [s.pending[i]] else [])
  }

  /** A visit takes its entry out of what is to be visited and, if it waits, adds it to what is kept. */
  lemma VisitSplits(s: State, i: nat, next: State, j: nat, fate: Fate)
    requires i < |s.pending| && OneVisit(s, i, next, j, fate)
    ensures j <= |next.pending|
    ensures multiset(s.pending[i..]) == multiset(next.pending[j..]) + multiset{s.pending[i]}
    ensures multiset(next.pending[..j])
         == multiset(s.pending[..i]) + (if fate == Waiting then multiset{s.pending[i]} else multiset{})
  {
    hide SwapRemove, EntriesOf;
    SwapRemoveFrom(s.pending, i);
  }

  lemma ShareSplits(es: seq<Pending>, rest: seq<Pending>, here: Pending, look: Pending -> Look, fate: Fate, e: Pending)
    requires multiset(es) == multiset(rest) + multiset{here}
    ensures Share(es, look, fate, e)
         == Share(rest, look, fate, e) + (if e == here && FateOf(look(here)) == fate then 1 else 0)
  {
    hide FateOf;
  }

  /** One visit and the rest of the pass make up the pass. */
  lemma VisitCounts(s: State, i: nat, next: State, j: nat, look: Pending -> Look, r: State)
    requires i < |s.pending| && OneVisit(s, i, next, j, FateOf(look(s.pending[i])))
    requires j <= |next.pending| && PassResult(next, j, look, r)
    ensures PassResult(s, i, look, r)
  {
    hide FateOf, OneVisit, Share;
    var here, fate := s.pending[i], FateOf(look(s.pending[i]));
    VisitSplits(s, i, next, j, fate);
    VisitKills(s, i, next, j, fate);
    forall e
      ensures multiset(r.pending)[e] == multiset(s.pending[..i])[e] + Share(s.pending[i..], look, Waiting, e)
    {
      ShareSplits(s.pending[i..], next.pending[j..], here, look, Waiting, e);
    }
    forall e
      ensures multiset(EntriesOf(r.kills))[e]
           == multiset(EntriesOf(s.kills))[e] + Share(s.pending[i..], look, Killed, e)
    {
      ShareSplits(s.pending[i..], next.pending[j..], here, look, Killed, e);
    }
  }

  lemma VisitKills(s: State, i: nat, next: State, j: nat, fate: Fate)
    requires i < |s.pending| && OneVisit(s, i, next, j, fate)
    ensures multiset(EntriesOf(next.kills))
         == multiset(EntriesOf(s.kills)) + (if fate == Killed then multiset{s.pending[i]} else multiset{})
  {
    hide SwapRemove, EntriesOf;
  }

  lemma PassEnd(s: State, i: nat)
    requires s.stage == Poll(i) && i == |s.pending|
    ensures Steps(s, 1) == s.(stage := Receive)
    ensures forall look :: PassResult(s, i, look, Steps(s, 1))
  {
    OneStep(s);
    assert s.pending[..i] == s.pending && s.pending[i..] == [];
  }

  lemma HeldFds(s: State)
    requires Held(s)
    ensures s.kernel.fds.Keys == FdsOf(s.pending)
  {}

  /** The entries not yet visited look as before. */
  lemma StillSeen(s: State, i: nat, next: State, j: nat, look: Pending -> Look)
    requires i < |s.pending| && Held(s)
    requires forall e | e in s.pending[i..] :: look(e) == LookOf(s, e)
    requires var waits := FateOf(look(s.pending[i])) == Waiting;
      && j == (if waits then i + 1 else i)
      && next.pending == (if waits then s.pending else SwapRemove(s.pending, i))
      && (forall e: Pending | waits || e.fd != s.pending[i].fd :: LookOf(next, e) == LookOf(s, e))
    ensures forall e | e in next.pending[j..] :: look(e) == LookOf(next, e)
  {
    hide FateOf, LookOf, SwapRemove;
    SwapRemoveFrom(s.pending, i);
    SwapRemoveFds(s.pending, i);
    forall e | e in next.pending[j..] ensures look(e) == LookOf(next, e) {
      assert e in multiset(next.pending[j..]);
      assert e in multiset(s.pending[i..]);
      if j == i {
        var k :| 0 <= k < |next.pending| && next.pending[k] == e;
        FdOfMember(next.pending, k);
      }
    }
  }

  /** In every reachable state the undisturbed pass of the protocol leaves and kills exactly what the
      in-place pass of the killer thread does with the same looks. */
  lemma UndisturbedPass(s: State, look: Pending -> Look) returns (n: nat)
    requires Inv(s) && s.stage == Poll(0)
    requires forall e | e in s.pending :: look(e) == LookOf(s, e)
    ensures Steps(s, n).stage == Receive
    ensures multiset(Steps(s, n).pending) == multiset(WithFate(s.pending, look, Waiting))
    ensures multiset(EntriesOf(Steps(s, n).kills))
         == multiset(EntriesOf(s.kills)) + multiset(WithFate(s.pending, look, Killed))
  {
    hide FateOf, LookOf, Distinct, Pinned, Deciding, Justified, DistinctFds, FdsOf, Steps, WithFate, EntriesOf, Share;
    assert s.pending[0..] == s.pending && s.pending[..0] == [];
    n := PassRefines(s, 0, look);
    forall e
      ensures multiset(WithFate(s.pending, look, Waiting))[e] == Share(s.pending, look, Waiting, e)
      ensures multiset(WithFate(s.pending, look, Killed))[e] == Share(s.pending, look, Killed, e)
    {
      FateShare(s.pending, look, Waiting, e);
      FateShare(s.pending, look, Killed, e);
    }
  }

  /** At one input: a process in the foreground whose name cannot be read is killed for a listed uid. */
  lemma NamelessIsKilled() returns (s: State, n: nat)
    ensures s.kernel.procs == map[7 := Proc(0, false, 0, None)] && s.index == map[10001 := ["com.foo"]]
    ensures s.kills == [] && |Steps(s, n).kills| == 1 && Steps(s, n).kills[0].born == 0
  {
    var e := Pending(3, 7, 10001, 0);
    s := State(Kernel(map[7 := Proc(0, false, 0, None)], 1, map[3 := 0]), 0, {10001}, map[10001 := ["com.foo"]],
               [], true, [e], Poll(0), [], 0);
    assert s.kernel.procs[7].born == 0 && RunningSomewhere(s.kernel, 0);
    var m, ev := VisitRefines(s, 0);
    assert FateOf(LookOf(s, e)) == Killed;
    n := m;
  }
}
