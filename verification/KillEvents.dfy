/** Where the killer's entries come from: every entry it keeps and every kill goes back to an event that
    the drain thread sent, for the pid and the uid of that event. */
module KillEvents {
  import opened Rules
  import opened KillProtocol

  /** Consecutive states of a run. */
  ghost predicate IsTrace(states: seq<State>, actions: seq<Action>) {
    && |states| == |actions| + 1
    && forall k | 0 <= k < |actions| :: Enabled(states[k], actions[k]) && states[k + 1] == Step(states[k], actions[k])
  }

  ghost predicate SentAt(actions: seq<Action>, n: nat, pid: nat, uid: Uid) {
    n < |actions| && actions[n] == Send(pid, uid)
  }

  ghost predicate IsSent(actions: seq<Action>, pid: nat, uid: Uid) {
    exists n: nat :: SentAt(actions, n, pid, uid)
  }

  /** The m-th step opened the entry's descriptor, of the process that had the pid then, at the time noted
      down in the entry. */
  ghost predicate OpenedAt(states: seq<State>, actions: seq<Action>, m: nat, e: Pending, born: nat) {
    && m < |states| && m < |actions| && actions[m] == Killer(Succeeds(e.fd))
    && states[m].stage == Open(e.pid, e.uid)
    && states[m].clock == e.since
    && e.pid in states[m].kernel.procs && states[m].kernel.procs[e.pid].born == born
  }

  /** An event with the entry's pid and uid was sent, and then the descriptor was opened. */
  ghost predicate IsReported(states: seq<State>, actions: seq<Action>, e: Pending, born: nat) {
    exists n: nat, m: nat | n < m :: SentAt(actions, n, e.pid, e.uid) && OpenedAt(states, actions, m, e, born)
  }

  /** Everything in the killer's hands was sent. */
  ghost predicate Traced(states: seq<State>, actions: seq<Action>, s: State) {
    && (forall q | q in s.queue :: IsSent(actions, q.0, q.1))
    && (s.stage.Open? ==> IsSent(actions, s.stage.pid, s.stage.uid))
    && (forall e | e in s.pending && e.fd in s.kernel.fds :: IsReported(states, actions, e, s.kernel.fds[e.fd]))
    && (forall k | k in s.kills :: IsReported(states, actions, k.entry, k.born))
  }

  lemma StaysSent(actions: seq<Action>, a: Action, pid: nat, uid: Uid)
    ensures IsSent(actions, pid, uid) ==> IsSent(actions + [a], pid, uid)
    ensures a == Send(pid, uid) ==> IsSent(actions + [a], pid, uid)
  {
    if n: nat :| SentAt(actions, n, pid, uid) {
      assert SentAt(actions + [a], n, pid, uid);
    }
    if a == Send(pid, uid) {
      assert SentAt(actions + [a], |actions|, pid, uid);
    }
  }

  lemma StaysReported(states: seq<State>, r: State, actions: seq<Action>, a: Action, e: Pending, born: nat)
    requires IsReported(states, actions, e, born)
    ensures IsReported(states + [r], actions + [a], e, born)
  {
    var n: nat, m: nat :| n < m && SentAt(actions, n, e.pid, e.uid) && OpenedAt(states, actions, m, e, born);
    assert SentAt(actions + [a], n, e.pid, e.uid) && OpenedAt(states + [r], actions + [a], m, e, born);
  }

  /** A step that takes no event and opens no descriptor. */
  lemma KeepsTraced(states: seq<State>, actions: seq<Action>, s: State, r: State, a: Action)
    requires Traced(states, actions, s)
    requires forall q | q in r.queue :: q in s.queue || a == Send(q.0, q.1)
    requires r.stage.Open? ==> r.stage == s.stage || (r.stage.pid, r.stage.uid) in s.queue
    requires forall e | e in r.pending && e.fd in r.kernel.fds ::
      e in s.pending && e.fd in s.kernel.fds && s.kernel.fds[e.fd] == r.kernel.fds[e.fd]
    requires forall k | k in r.kills && k !in s.kills ::
      k.entry in s.pending && k.entry.fd in s.kernel.fds && s.kernel.fds[k.entry.fd] == k.born
    ensures Traced(states + [r], actions + [a], r)
  {
    hide IsSent, IsReported;
    forall q | q in r.queue ensures IsSent(actions + [a], q.0, q.1) {
      StaysSent(actions, a, q.0, q.1);
    }
    if r.stage.Open? {
      StaysSent(actions, a, r.stage.pid, r.stage.uid);
      assert r.stage != s.stage ==> IsSent(actions, (r.stage.pid, r.stage.uid).0, (r.stage.pid, r.stage.uid).1);
    }
    forall e | e in r.pending && e.fd in r.kernel.fds
      ensures IsReported(states + [r], actions + [a], e, r.kernel.fds[e.fd])
    {
      StaysReported(states, r, actions, a, e, r.kernel.fds[e.fd]);
    }
    forall k | k in r.kills ensures IsReported(states + [r], actions + [a], k.entry, k.born) {
      StaysReported(states, r, actions, a, k.entry, k.born);
    }
  }

  lemma OpenKeepsTraced(states: seq<State>, actions: seq<Action>, s: State, call: Outcome)
    requires |states| == |actions| + 1 && states[|actions|] == s
    requires Traced(states, actions, s) && s.stage.Open? && s.kernel.fds.Keys == FdsOf(s.pending)
    requires call.Succeeds? ==> call.fd !in s.kernel.fds
    ensures Traced(states + [KillerStep(s, call)], actions + [Killer(call)], KillerStep(s, call))
  {
    hide IsSent, IsReported;
    var r, a, pid, uid := KillerStep(s, call), Killer(call), s.stage.pid, s.stage.uid;
    if call.Succeeds? && pid in s.kernel.procs {
      var e := Pending(call.fd, pid, uid, s.clock);
      var before := s.(stage := Collect);
      KeepsTraced(states, actions, s, before, a);
      JustOpened(states, actions, s, call);
      forall x | x in r.pending && x.fd in r.kernel.fds
        ensures IsReported(states + [r], actions + [a], x, r.kernel.fds[x.fd])
      {
        if x != e {
          assert x in s.pending && x.fd in FdsOf(s.pending);
          StaysReported(states, r, actions, a, x, s.kernel.fds[x.fd]);
        }
      }
      forall k | k in r.kills ensures IsReported(states + [r], actions + [a], k.entry, k.born) {
        StaysReported(states, r, actions, a, k.entry, k.born);
      }
    } else {
      KeepsTraced(states, actions, s, r, a);
    }
  }

  /** The step just taken opened the descriptor of the event in hand. */
  lemma JustOpened(states: seq<State>, actions: seq<Action>, s: State, call: Outcome)
    requires |states| == |actions| + 1 && states[|actions|] == s
    requires Traced(states, actions, s) && s.stage.Open? && call.Succeeds? && s.stage.pid in s.kernel.procs
    ensures var e := Pending(call.fd, s.stage.pid, s.stage.uid, s.clock);
      IsReported(states + [KillerStep(s, call)], actions + [Killer(call)], e, s.kernel.procs[e.pid].born)
  {
    hide KillerStep;
    var r, e := KillerStep(s, call), Pending(call.fd, s.stage.pid, s.stage.uid, s.clock);
    var n: nat :| SentAt(actions, n, e.pid, e.uid);
    assert SentAt(actions + [Killer(call)], n, e.pid, e.uid);
    assert OpenedAt(states + [r], actions + [Killer(call)], |actions|, e, s.kernel.procs[e.pid].born);
  }

  /** Nothing is added: no event, no entry, no descriptor, and no kill but of a pinned process. */
  ghost predicate AddsNothing(s: State, r: State) {
    && (forall q | q in r.queue :: q in s.queue)
    && (r.stage.Open? ==> (r.stage.pid, r.stage.uid) in s.queue)
    && (forall e | e in r.pending :: e in s.pending)
    && (forall fd | fd in r.kernel.fds :: fd in s.kernel.fds && r.kernel.fds[fd] == s.kernel.fds[fd])
    && (forall k | k in r.kills && k !in s.kills ::
          k.entry in s.pending && k.entry.fd in s.kernel.fds && s.kernel.fds[k.entry.fd] == k.born)
  }

  lemma FinishAddsNothing(s: State, i: nat)
    requires i < |s.pending|
    ensures AddsNothing(s, Finish(s, i))
  {
    hide SwapRemove;
    SwapRemoveSpec(s.pending, i);
  }

  lemma SignalAddsNothing(s: State, call: Outcome)
    requires InHand(s) && s.stage.Signal?
    ensures AddsNothing(s, KillerStep(s, call))
  {
    hide Finish, RunningSomewhere;
    assert s.pending[s.stage.i] in s.pending;
  }

  lemma ShutdownAddsNothing(s: State, call: Outcome)
    requires s.stage.Shutdown?
    ensures AddsNothing(s, KillerStep(s, call))
  {
    hide Finish, RunningSomewhere;
  }

  /** What a killer step other than an open does to the lists. */
  lemma KillerAddsNothing(s: State, call: Outcome)
    requires InHand(s) && !s.stage.Open?
    ensures AddsNothing(s, KillerStep(s, call))
  {
    if s.stage.Signal? {
      SignalAddsNothing(s, call);
    } else if s.stage.Shutdown? {
      ShutdownAddsNothing(s, call);
    } else {
      QuietAddsNothing(s, call);
    }
  }

  lemma QuietAddsNothing(s: State, call: Outcome)
    requires InHand(s) && !s.stage.Open? && !s.stage.Signal? && !s.stage.Shutdown?
    ensures AddsNothing(s, KillerStep(s, call))
  {
    hide Finish, ReadNameOf, NamesFor, AllUnreadable, RunningSomewhere, AddsNothing;
    var r := KillerStep(s, call);
    if s.stage.Receive? || s.stage.Collect? || s.stage.Exited? {
      TakingAddsNothing(s, call);
    } else {
      if s.stage.i < |s.pending| {
        FinishAddsNothing(s, s.stage.i);
      }
      if !(s.stage.i < |s.pending| && r == Finish(s, s.stage.i)) {
        MovingAddsNothing(s, r);
      }
    }
  }

  lemma TakingAddsNothing(s: State, call: Outcome)
    requires s.stage.Receive? || s.stage.Collect? || s.stage.Exited?
    ensures AddsNothing(s, KillerStep(s, call))
  {}

  lemma MovingAddsNothing(s: State, r: State)
    requires r == s.(stage := r.stage) && !r.stage.Open?
    ensures AddsNothing(s, r)
  {}

  lemma StepKeepsTraced(states: seq<State>, actions: seq<Action>, s: State, a: Action)
    requires |states| == |actions| + 1 && states[|actions|] == s
    requires Traced(states, actions, s) && Inv(s) && Enabled(s, a)
    ensures Traced(states + [Step(s, a)], actions + [a], Step(s, a))
  {
    hide Traced, Pinned, Deciding, Justified, KillerStep, FdsOf;
    if !a.Killer? {
      KeepsTraced(states, actions, s, Step(s, a), a);
    } else if s.stage.Open? {
      OpenKeepsTraced(states, actions, s, a.call);
    } else {
      KillerAddsNothing(s, a.call);
      KeepsTraced(states, actions, s, Step(s, a), a);
    }
  }

  lemma {:induction false} TraceIsTraced(states: seq<State>, actions: seq<Action>)
    requires IsTrace(states, actions) && Init(states[0])
    ensures Inv(states[|actions|]) && Traced(states, actions, states[|actions|])
    decreases |actions|
  {
    hide Inv, Step, Enabled;
    if actions == [] {
      InitHolds(states[0]);
    } else {
      hide Init, Traced;
      var n := |actions| - 1;
      TraceIsTraced(states[..n + 1], actions[..n]);
      StepKeepsInv(states[n], actions[n]);
      StepKeepsTraced(states[..n + 1], actions[..n], states[n], actions[n]);
      assert states == states[..n + 1] + [states[n + 1]] && actions == actions[..n] + [actions[n]];
    }
  }

  /** In every run, every pending entry and every kill is that of an event sent before: with the event's
      pid and uid, the descriptor of the process that had the pid when it was opened, and its age counted
      from then. */
  lemma EntriesAreEvents(states: seq<State>, actions: seq<Action>)
    requires IsTrace(states, actions) && Init(states[0])
    ensures |states| == |actions| + 1
    ensures var s := states[|actions|];
      && (forall e | e in s.pending :: e.fd in s.kernel.fds && IsReported(states, actions, e, s.kernel.fds[e.fd]))
      && (forall k | k in s.kills :: IsReported(states, actions, k.entry, k.born))
  {
    hide Init, IsReported, Pinned, Deciding, Justified, Distinct;
    TraceIsTraced(states, actions);
    var s := states[|actions|];
    forall e | e in s.pending ensures e.fd in s.kernel.fds {
      assert e.fd in FdsOf(s.pending);
    }
  }
}
