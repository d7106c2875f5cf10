/** From event to kill: without interference every queued event of an existing process becomes one entry,
    and the pass that follows kills exactly the entries whose process should be killed. */
module Arrivals {
  import opened Rules
  import opened KillProtocol
  import opened GateThreads
  import opened Undisturbed

  /** One entry for each event whose pid exists, in the order of the events. */
  function EntriesFor(procs: map<nat, Proc>, queue: seq<(nat, Uid)>, fds: seq<nat>, clock: nat): seq<Pending>
    requires |fds| == |queue|
  {
    if queue == [] then []
    else
      (if queue[0].0 in procs then [Pending(fds[0], queue[0].0, queue[0].1, clock)] else [])
      + EntriesFor(procs, queue[1..], fds[1..], clock)
  }

  lemma {:induction false} EntryFor(procs: map<nat, Proc>, queue: seq<(nat, Uid)>, fds: seq<nat>, clock: nat, j: nat)
    requires |fds| == |queue| && j < |queue| && queue[j].0 in procs
    ensures Pending(fds[j], queue[j].0, queue[j].1, clock) in EntriesFor(procs, queue, fds, clock)
  {
    if j == 0 {
    } else {
      EntryFor(procs, queue[1..], fds[1..], clock, j - 1);
    }
  }

  /** Numbers that the kernel may give to new descriptors. */
  ghost predicate Unused(k: Kernel, fds: seq<nat>) {
    && (forall fd | fd in fds :: fd !in k.fds)
    && forall i, j | 0 <= i < j < |fds| :: fds[i] != fds[j]
  }

  /** All queued events have been taken and each has its entry, which pins the process that has the pid;
      nothing else has changed. */
  ghost predicate TakenUp(s: State, fds: seq<nat>, r: State)
    requires |fds| == |s.queue|
  {
    var entries := EntriesFor(s.kernel.procs, s.queue, fds, s.clock);
    && r == s.(stage := Poll(0), queue := [], pending := s.pending + entries,
               kernel := s.kernel.(fds := r.kernel.fds))
    && (forall fd | fd in s.kernel.fds :: fd in r.kernel.fds && r.kernel.fds[fd] == s.kernel.fds[fd])
    && forall e | e in entries ::
         e.pid in s.kernel.procs && e.fd in r.kernel.fds && r.kernel.fds[e.fd] == s.kernel.procs[e.pid].born
  }

  /** The two steps that take up the first event. */
  lemma TakesFirst(s: State, fds: seq<nat>)
    requires s.stage == Collect && s.queue != [] && |fds| == |s.queue| && Unused(s.kernel, fds)
    ensures var a, pid, uid := Killer(Succeeds(fds[0])), s.queue[0].0, s.queue[0].1;
      var opening := s.(stage := Open(pid, uid), queue := s.queue[1..]);
      && Enabled(s, a) && Step(s, a) == opening && Enabled(opening, a)
      && Unused(Step(opening, a).kernel, fds[1..])
      && Step(opening, a) ==
         if pid in s.kernel.procs
         then s.(stage := Collect, queue := s.queue[1..],
                 kernel := s.kernel.(fds := s.kernel.fds[fds[0] := s.kernel.procs[pid].born]),
                 pending := s.pending + [Pending(fds[0], pid, uid, s.clock)])
         else s.(stage := Collect, queue := s.queue[1..])
  {
    assert fds[0] in fds && forall fd | fd in fds[1..] :: fd in fds;
  }

  lemma FirstTakenUp(s: State, fds: seq<nat>, mid: State, r: State)
    requires s.stage == Collect && s.queue != [] && |fds| == |s.queue| && Unused(s.kernel, fds)
    requires var (pid, uid) := s.queue[0];
      mid == if pid in s.kernel.procs
             then s.(stage := Collect, queue := s.queue[1..],
                     kernel := s.kernel.(fds := s.kernel.fds[fds[0] := s.kernel.procs[pid].born]),
                     pending := s.pending + [Pending(fds[0], pid, uid, s.clock)])
             else s.(stage := Collect, queue := s.queue[1..])
    requires TakenUp(mid, fds[1..], r)
    ensures TakenUp(s, fds, r)
  {
    assert fds[0] in fds;
  }

  lemma {:induction false} Collects(s: State, fds: seq<nat>) returns (actions: seq<Action>)
    requires s.stage == Collect && |fds| == |s.queue| && Unused(s.kernel, fds)
    ensures actions != [] && forall a | a in actions :: a.Killer?
    ensures IsRun(s, actions) && TakenUp(s, fds, Final(s, actions))
    decreases |s.queue|
  {
    hide Unused, TakenUp, KillerStep, Enabled;
    if s.queue == [] {
      actions := [Killer(Fails)];
      NothingToTake(s, fds);
      assert IsRun(Step(s, actions[0]), actions[1..]);
    } else {
      TakesFirst(s, fds);
      var a, pid, uid := Killer(Succeeds(fds[0])), s.queue[0].0, s.queue[0].1;
      var opening := s.(stage := Open(pid, uid), queue := s.queue[1..]);
      var mid := Step(opening, a);
      var rest := Collects(mid, fds[1..]);
      actions := [a] + ([a] + rest);
      assert actions[1..] == [a] + rest && ([a] + rest)[1..] == rest;
      assert IsRun(opening, [a] + rest) && Final(opening, [a] + rest) == Final(mid, rest);
      FirstTakenUp(s, fds, mid, Final(mid, rest));
    }
  }

  lemma NothingToTake(s: State, fds: seq<nat>)
    requires s.stage == Collect && s.queue == [] && fds == []
    ensures Enabled(s, Killer(Fails)) && TakenUp(s, fds, Step(s, Killer(Fails)))
  {}

  /** The killer thread, woken up by an event and not disturbed, leaves one entry for every queued event of an
      existing process: with the event's pid and uid, its age counted from now, and its descriptor pinning
      the process that has the pid now. */
  lemma ReceivesAll(s: State, fds: seq<nat>) returns (actions: seq<Action>)
    requires s.stage == Receive && s.queue != [] && |fds| == |s.queue| && Unused(s.kernel, fds)
    ensures forall a | a in actions :: a.Killer?
    ensures IsRun(s, actions) && TakenUp(s, fds, Final(s, actions))
  {
    var collecting := s.(stage := Collect);
    actions := Collects(collecting, fds);
    assert actions[0] in actions && Step(s, actions[0]) == Step(collecting, actions[0]);
    assert Enabled(s, actions[0]) == Enabled(collecting, actions[0]);
    hide Step, Enabled, KillerStep, EntriesFor;
    assert Final(s, actions) == Final(collecting, actions);
  }

  // ---------- the fate of an entry, in the state's own terms ----------

  /** The pinned process has not exited and still has its pid. */
  ghost predicate StillRuns(s: State, e: Pending) {
    && e.pid in s.kernel.procs
    && (e.fd in s.kernel.fds ==> exists pid | pid in s.kernel.procs ::
          s.kernel.procs[pid].born == s.kernel.fds[e.fd] && !s.kernel.procs[pid].zombie)
  }

  /** It is in the foreground, or 300 ms have passed since its descriptor was opened. */
  ghost predicate IsDue(s: State, e: Pending) {
    e.pid in s.kernel.procs && (s.kernel.procs[e.pid].oom == 0 || s.clock >= e.since + 300)
  }

  /** Its uid is on the block list, and its name is a listed one or cannot be read. */
  ghost predicate IsTarget(s: State, e: Pending) {
    && e.uid in s.mirror
    && e.uid in s.index && s.index[e.uid] != []
    && (e.pid in s.kernel.procs && !s.kernel.procs[e.pid].zombie && s.kernel.procs[e.pid].name.Some?
        ==> s.kernel.procs[e.pid].name.value in s.index[e.uid])
  }

  /** An entry is killed exactly when its process still runs, its moment has come and it is a target; it is
      kept exactly when its moment has not come. */
  lemma FateMeans(s: State, e: Pending)
    ensures FateOf(LookOf(s, e)) == Killed <==> StillRuns(s, e) && IsDue(s, e) && IsTarget(s, e)
    ensures FateOf(LookOf(s, e)) == Waiting <==> StillRuns(s, e) && !IsDue(s, e)
  {}

  // ---------- from event to kill ----------

  /** The kills added are of the processes that descriptors open at first pinned. */
  ghost predicate AddsPinned(s: State, r: State) {
    && s.kills <= r.kills
    && (forall fd | fd in r.kernel.fds :: fd in s.kernel.fds && r.kernel.fds[fd] == s.kernel.fds[fd])
    && forall j | |s.kills| <= j < |r.kills| ::
         r.kills[j].entry.fd in s.kernel.fds && r.kills[j].born == s.kernel.fds[r.kills[j].entry.fd]
  }

  /** The killer does not open anything: no event is waiting or in hand. */
  ghost predicate OnlyVisits(s: State) {
    s.queue == [] && !s.stage.Open? && InHand(s)
  }

  lemma FinishIs(s: State, i: nat)
    requires i < |s.pending|
    ensures var r := Finish(s, i);
      && r.queue == s.queue && r.stage == Poll(i) && r.kills == s.kills
      && forall fd | fd in r.kernel.fds :: fd in s.kernel.fds && r.kernel.fds[fd] == s.kernel.fds[fd]
  {}

  lemma StepAddsPinned(s: State)
    requires OnlyVisits(s)
    ensures OnlyVisits(KillerStep(s, WORKS)) && AddsPinned(s, KillerStep(s, WORKS))
  {
    hide Finish, ReadNameOf, NamesFor, AllUnreadable, RunningSomewhere, SwapRemove;
    if !(s.stage.Receive? || s.stage.Collect? || s.stage.Exited? || s.stage.Shutdown?) && s.stage.i < |s.pending| {
      FinishIs(s, s.stage.i);
    }
  }

  lemma {:induction false} StepsAddPinned(s: State, n: nat)
    requires OnlyVisits(s)
    ensures AddsPinned(s, Steps(s, n))
    decreases n
  {
    hide OnlyVisits, KillerStep;
    if n == 0 {
    } else {
      StepAddsPinned(s);
      StepsAddPinned(KillerStep(s, WORKS), n - 1);
    }
  }

  /** A pass without interference kills an entry whose fate it is, through the process it pins. */
  lemma PassKills(s: State, e: Pending) returns (n: nat)
    requires Inv(s) && s.stage == Poll(0) && s.queue == [] && e in s.pending && FateOf(LookOf(s, e)) == Killed
    ensures Steps(s, n).stage == Receive && s.kills <= Steps(s, n).kills
    ensures exists k | k in Steps(s, n).kills[|s.kills|..] ::
      k.entry == e && e.fd in s.kernel.fds && k.born == s.kernel.fds[e.fd]
  {
    hide Inv, KillerStep, FateOf, LookOf, Steps, EntriesOf;
    var look := x => LookOf(s, x);
    n := UndisturbedPass(s, look);
    KilledHasFate(s.pending, look, e);
    StepsAddPinned(s, n);
    var k := NewKillOf(s.kills, Steps(s, n).kills, e);
    assert k in Steps(s, n).kills[|s.kills|..];
  }

  /** A reported process that is in the foreground, whose uid is on the block list and whose name is a
      listed one or cannot be read, is killed in the pass that follows, whatever else is pending. */
  lemma ReportedIsKilled(s: State, fds: seq<nat>, j: nat) returns (actions: seq<Action>, n: nat)
    requires Inv(s) && s.stage == Receive && |fds| == |s.queue| && Unused(s.kernel, fds) && j < |s.queue|
    requires var (pid, uid) := s.queue[j]; var e := Pending(fds[j], pid, uid, s.clock);
      pid in s.kernel.procs && !s.kernel.procs[pid].zombie && s.kernel.procs[pid].oom == 0 && IsTarget(s, e)
    ensures IsRun(s, actions) && forall a | a in actions :: a.Killer?
    ensures var (pid, uid) := s.queue[j]; var r := Steps(Final(s, actions), n);
      && r.stage == Receive && s.kills <= r.kills
      && exists k | k in r.kills[|s.kills|..] ::
           k.entry.pid == pid && k.entry.uid == uid && k.born == s.kernel.procs[pid].born
  {
    hide Inv, Unused, FateOf, LookOf, IsTarget, Steps;
    actions := ReceivesAll(s, fds);
    var mid, e := Final(s, actions), Pending(fds[j], s.queue[j].0, s.queue[j].1, s.clock);
    RunKeepsInv(s, actions);
    EntryFor(s.kernel.procs, s.queue, fds, s.clock, j);
    FreshTargetIsKilled(s, fds, mid, e);
    n := PassKills(mid, e);
  }

  /** A pending process that has not come to the foreground is killed as well once 300 ms have passed since
      it was pinned, if it still runs and is a target then. */
  lemma TimedOutIsKilled(s: State, e: Pending, ms: nat) returns (n: nat)
    requires Inv(s) && s.stage == Poll(0) && s.queue == [] && e in s.pending
    requires StillRuns(s, e) && IsTarget(s, e) && s.clock + ms >= e.since + 300
    ensures var r := Steps(Step(s, Elapse(ms)), n);
      && r.stage == Receive && s.kills <= r.kills
      && exists k | k in r.kills[|s.kills|..] ::
           k.entry == e && e.fd in s.kernel.fds && k.born == s.kernel.fds[e.fd]
  {
    hide Inv, FateOf, LookOf, Steps, KillerStep;
    var later := Step(s, Elapse(ms));
    StepKeepsInv(s, Elapse(ms));
    FateMeans(later, e);
    n := PassKills(later, e);
  }

  lemma FreshTargetIsKilled(s: State, fds: seq<nat>, mid: State, e: Pending)
    requires |fds| == |s.queue| && TakenUp(s, fds, mid)
    requires e in EntriesFor(s.kernel.procs, s.queue, fds, s.clock)
    requires !s.kernel.procs[e.pid].zombie && s.kernel.procs[e.pid].oom == 0 && IsTarget(s, e)
    ensures e in mid.pending && FateOf(LookOf(mid, e)) == Killed
    ensures e.fd in mid.kernel.fds && mid.kernel.fds[e.fd] == s.kernel.procs[e.pid].born
  {
    hide FateOf, LookOf;
    FateMeans(mid, e);
  }

  lemma {:induction false} KilledHasFate(es: seq<Pending>, look: Pending -> Look, e: Pending)
    requires e in es && FateOf(look(e)) == Killed
    ensures multiset(WithFate(es, look, Killed))[e] > 0
  {
    hide FateOf;
    var n := |es| - 1;
    if es[n] != e {
      assert e in es[..n];
      KilledHasFate(es[..n], look, e);
    }
  }

  /** One more entry among the kills is that of a new kill. */
  lemma NewKillOf(before: seq<Kill>, after: seq<Kill>, e: Pending) returns (k: Kill)
    requires before <= after && multiset(EntriesOf(after))[e] > multiset(EntriesOf(before))[e]
    ensures k in after[|before|..] && k.entry == e
  {
    var added := after[|before|..];
    assert EntriesOf(after) == EntriesOf(before) + EntriesOf(added);
    assert e in EntriesOf(added);
    var j :| 0 <= j < |added| && EntriesOf(added)[j] == e;
    k := added[j];
  }
}
