/** What a delivered kill says about the run that led to it: not what the killer thread noted down, but
    which states the system was in while the descriptor was open. */
module KillHistory {
  import opened Rules
  import opened KillProtocol
  import opened KillEvents

  /** Something about an entry that a state can show. */
  datatype Fact =
    | Triggered
    | Listed
    | Names(names: seq<string>)
    | Carries(name: string)

  /** The entry is pending, its descriptor is open and pins the incarnation, and the fact holds. */
  ghost predicate Shows(s: State, e: Pending, born: nat, fact: Fact) {
    && e in s.pending && e.fd in s.kernel.fds && s.kernel.fds[e.fd] == born
    && match fact
       case Triggered =>
         && e.pid in s.kernel.procs && s.kernel.procs[e.pid].born == born
         && (s.kernel.procs[e.pid].oom == 0 || s.clock >= e.since + 300)
       case Listed => e.uid in s.mirror
       case Names(names) => NamesFor(s.index, e.uid) == names
       case Carries(name) => ReadNameOf(s.kernel, e.pid) == NameRead(Some(born), Some(name))
  }

  ghost predicate Sometime(states: seq<State>, e: Pending, born: nat, fact: Fact) {
    exists n | 0 <= n < |states| :: Shows(states[n], e, born, fact)
  }

  /** The n-th step reads the name of the entry's process, with this answer. */
  ghost predicate ReadAt(states: seq<State>, actions: seq<Action>, n: nat, e: Pending, born: nat,
                         name: Option<string>)
  {
    && n < |states| && n < |actions| && actions[n].Killer?
    && e.fd in states[n].kernel.fds && states[n].kernel.fds[e.fd] == born
    && states[n].stage.ReadName? && states[n].stage.i < |states[n].pending|
    && states[n].pending[states[n].stage.i] == e
    && name == if actions[n].call.Fails? then None else ReadNameOf(states[n].kernel, e.pid).name
  }

  predicate Increasing(ns: seq<nat>) {
    forall i, j | 0 <= i < j < |ns| :: ns[i] < ns[j]
  }

  /** The reads noted down are those of as many steps of the run, in order. */
  ghost predicate LoggedAt(states: seq<State>, actions: seq<Action>, e: Pending, born: nat, seen: seq<NameRead>,
                           ns: seq<nat>)
  {
    && |ns| == |seen| && Increasing(ns)
    && forall j | 0 <= j < |ns| :: ReadAt(states, actions, ns[j], e, born, seen[j].name)
  }

  ghost predicate Logged(states: seq<State>, actions: seq<Action>, e: Pending, born: nat, seen: seq<NameRead>) {
    exists ns: seq<nat> :: LoggedAt(states, actions, e, born, seen, ns)
  }

  /** Twenty steps of the run read the name of the entry's process and got none. */
  ghost predicate NeverReadable(states: seq<State>, actions: seq<Action>, e: Pending, born: nat) {
    exists ns: seq<nat> | |ns| == 20 && Increasing(ns) ::
      forall j | 0 <= j < |ns| :: ReadAt(states, actions, ns[j], e, born, None)
  }

  /** The process carried a listed name at some time, or twenty reads noted down showed no name. */
  ghost predicate NameSeen(states: seq<State>, e: Pending, born: nat, names: seq<string>, ev: Evidence) {
    CarriesOne(states, e, born, names) || (|ev.seen| == IDENTITY_TRIES && AllUnreadable(ev.seen))
  }

  ghost predicate CarriesOne(states: seq<State>, e: Pending, born: nat, names: seq<string>) {
    exists name | name in names :: Sometime(states, e, born, Carries(name))
  }

  /** The run grounds a kill: while the descriptor was open and pinned the process hit, the process
      triggered, its uid was on the block list, names were listed for the uid, and one of them was seen
      on the process or none of twenty reads got a name. */
  ghost predicate Grounded(states: seq<State>, actions: seq<Action>, e: Pending, born: nat) {
    && Sometime(states, e, born, Triggered)
    && Sometime(states, e, born, Listed)
    && exists names | names != [] ::
         && Sometime(states, e, born, Names(names))
         && (CarriesOne(states, e, born, names) || NeverReadable(states, actions, e, born))
  }

  /** What has been shown about the entry in hand at each stage, as long as its process exists. */
  ghost predicate HandGrounded(states: seq<State>, actions: seq<Action>, s: State)
    requires InHand(s)
  {
    match s.stage
    case CheckUid(i, ev) => HandAt(states, actions, s, s.pending[i], ev, 1)
    case FetchNames(i, ev) => HandAt(states, actions, s, s.pending[i], ev, 2)
    case ReadName(i, ev) => HandAt(states, actions, s, s.pending[i], ev, 3)
    case Signal(i, ev) => HandAt(states, actions, s, s.pending[i], ev, 4)
    case _ => true
  }

  ghost predicate HandAt(states: seq<State>, actions: seq<Action>, s: State, e: Pending, ev: Evidence, level: nat) {
    e.fd in s.kernel.fds && Exists(s.kernel, s.kernel.fds[e.fd]) ==>
      var born, names := s.kernel.fds[e.fd], NamesFor(ev.index, e.uid);
      && Sometime(states, e, born, Triggered)
      && (level >= 2 ==> Sometime(states, e, born, Listed))
      && (level >= 3 ==> names != [] && Sometime(states, e, born, Names(names)))
      && (level >= 3 ==> Logged(states, actions, e, born, ev.seen))
      && (level >= 4 ==> NameSeen(states, e, born, names, ev))
  }

  ghost predicate History(states: seq<State>, actions: seq<Action>, s: State) {
    && Inv(s)
    && HandGrounded(states, actions, s)
    && forall k | k in s.kills :: Grounded(states, actions, k.entry, k.born)
  }

  // ---------- one more state ----------

  lemma StaysSometime(states: seq<State>, s: State, e: Pending, born: nat, fact: Fact)
    ensures Sometime(states, e, born, fact) ==> Sometime(states + [s], e, born, fact)
    ensures Shows(s, e, born, fact) ==> Sometime(states + [s], e, born, fact)
  {
    hide Shows;
    if n :| 0 <= n < |states| && Shows(states[n], e, born, fact) {
      assert (states + [s])[n] == states[n];
    }
    assert (states + [s])[|states|] == s;
  }

  lemma StaysNameSeen(states: seq<State>, s: State, e: Pending, born: nat, names: seq<string>, ev: Evidence)
    requires NameSeen(states, e, born, names, ev)
    ensures NameSeen(states + [s], e, born, names, ev)
  {
    hide CarriesOne;
    if CarriesOne(states, e, born, names) {
      StaysCarriesOne(states, s, e, born, names);
    }
  }

  lemma StaysCarriesOne(states: seq<State>, s: State, e: Pending, born: nat, names: seq<string>)
    requires CarriesOne(states, e, born, names)
    ensures CarriesOne(states + [s], e, born, names)
  {
    hide Sometime;
    var name :| name in names && Sometime(states, e, born, Carries(name));
    StaysSometime(states, s, e, born, Carries(name));
  }

  /** The steps of a run stay what they were when it goes on. */
  lemma StaysReadAt(states: seq<State>, s: State, actions: seq<Action>, a: Action, n: nat, e: Pending, born: nat,
                    name: Option<string>)
    requires ReadAt(states, actions, n, e, born, name)
    ensures ReadAt(states + [s], actions + [a], n, e, born, name)
  {}

  lemma StaysLogged(states: seq<State>, s: State, actions: seq<Action>, a: Action, e: Pending, born: nat,
                    seen: seq<NameRead>)
    requires Logged(states, actions, e, born, seen)
    ensures Logged(states + [s], actions + [a], e, born, seen)
  {
    hide ReadAt;
    var ns: seq<nat> :| LoggedAt(states, actions, e, born, seen, ns);
    forall j | 0 <= j < |ns| ensures ReadAt(states + [s], actions + [a], ns[j], e, born, seen[j].name) {
      StaysReadAt(states, s, actions, a, ns[j], e, born, seen[j].name);
    }
    assert LoggedAt(states + [s], actions + [a], e, born, seen, ns);
  }

  lemma StaysNeverReadable(states: seq<State>, s: State, actions: seq<Action>, a: Action, e: Pending, born: nat)
    requires NeverReadable(states, actions, e, born)
    ensures NeverReadable(states + [s], actions + [a], e, born)
  {
    hide ReadAt;
    var ns: seq<nat> :| |ns| == IDENTITY_TRIES && Increasing(ns)
      && forall j | 0 <= j < |ns| :: ReadAt(states, actions, ns[j], e, born, None);
    forall j | 0 <= j < |ns| ensures ReadAt(states + [s], actions + [a], ns[j], e, born, None) {
      StaysReadAt(states, s, actions, a, ns[j], e, born, None);
    }
  }

  /** One more read is one more step. */
  lemma LogOneMore(states: seq<State>, r: State, actions: seq<Action>, a: Action, e: Pending, born: nat,
                   seen: seq<NameRead>, read: NameRead)
    requires |states| == |actions| + 1
    requires Logged(states, actions, e, born, seen)
    requires ReadAt(states + [r], actions + [a], |actions|, e, born, read.name)
    ensures Logged(states + [r], actions + [a], e, born, seen + [read])
  {
    var ns: seq<nat> :| LoggedAt(states, actions, e, born, seen, ns);
    StaysLoggedAt(states, r, actions, a, e, born, seen, ns);
    hide ReadAt;
    assert LoggedAt(states + [r], actions + [a], e, born, seen + [read], ns + [|actions|]);
  }

  lemma StaysLoggedAt(states: seq<State>, s: State, actions: seq<Action>, a: Action, e: Pending, born: nat,
                      seen: seq<NameRead>, ns: seq<nat>)
    requires LoggedAt(states, actions, e, born, seen, ns)
    ensures LoggedAt(states + [s], actions + [a], e, born, seen, ns)
    ensures forall j | 0 <= j < |ns| :: ns[j] < |actions|
  {
    forall j | 0 <= j < |ns| ensures ReadAt(states + [s], actions + [a], ns[j], e, born, seen[j].name) {
      StaysReadAt(states, s, actions, a, ns[j], e, born, seen[j].name);
    }
  }

  lemma LoggedUnreadable(states: seq<State>, actions: seq<Action>, e: Pending, born: nat, seen: seq<NameRead>)
    requires Logged(states, actions, e, born, seen) && |seen| == IDENTITY_TRIES && AllUnreadable(seen)
    ensures NeverReadable(states, actions, e, born)
  {
    hide ReadAt;
    var ns: seq<nat> :| LoggedAt(states, actions, e, born, seen, ns);
    forall j | 0 <= j < |ns| ensures ReadAt(states, actions, ns[j], e, born, None) {
      assert seen[j] in seen;
    }
  }

  lemma StaysHandAt(states: seq<State>, s: State, r: State, actions: seq<Action>, a: Action, e: Pending, ev: Evidence,
                    level: nat)
    requires HandAt(states, actions, s, e, ev, level) && r.kernel.fds == s.kernel.fds
    requires e.fd in s.kernel.fds && Exists(r.kernel, s.kernel.fds[e.fd]) ==> Exists(s.kernel, s.kernel.fds[e.fd])
    ensures HandAt(states + [r], actions + [a], r, e, ev, level)
  {
    hide Sometime, NameSeen, Exists, Logged;
    if e.fd in s.kernel.fds && Exists(s.kernel, s.kernel.fds[e.fd]) {
      var born, names := s.kernel.fds[e.fd], NamesFor(ev.index, e.uid);
      StaysSometime(states, r, e, born, Triggered);
      StaysSometime(states, r, e, born, Listed);
      StaysSometime(states, r, e, born, Names(names));
      if level >= 3 {
        StaysLogged(states, r, actions, a, e, born, ev.seen);
      }
      if level >= 4 {
        StaysNameSeen(states, r, e, born, names, ev);
      }
    }
  }

  lemma StaysGrounded(states: seq<State>, s: State, actions: seq<Action>, a: Action, e: Pending, born: nat)
    requires Grounded(states, actions, e, born)
    ensures Grounded(states + [s], actions + [a], e, born)
  {
    hide Sometime, CarriesOne, NeverReadable;
    var names :| names != [] && Sometime(states, e, born, Names(names))
      && (CarriesOne(states, e, born, names) || NeverReadable(states, actions, e, born));
    StaysSometime(states, s, e, born, Triggered);
    StaysSometime(states, s, e, born, Listed);
    StaysSometime(states, s, e, born, Names(names));
    if CarriesOne(states, e, born, names) {
      StaysCarriesOne(states, s, e, born, names);
    } else {
      StaysNeverReadable(states, s, actions, a, e, born);
    }
  }

  lemma OldKillsStay(states: seq<State>, s: State, r: State, actions: seq<Action>, a: Action)
    requires forall k | k in s.kills :: Grounded(states, actions, k.entry, k.born)
    ensures forall k | k in s.kills :: Grounded(states + [r], actions + [a], k.entry, k.born)
  {
    hide Grounded;
    forall k | k in s.kills ensures Grounded(states + [r], actions + [a], k.entry, k.born) {
      StaysGrounded(states, r, actions, a, k.entry, k.born);
    }
  }

  /** The latest state is the one a step starts from. */
  ghost predicate EndsAt(states: seq<State>, actions: seq<Action>, s: State) {
    |states| == |actions| + 1 && states[|actions|] == s
  }

  lemma ShownNow(states: seq<State>, actions: seq<Action>, s: State, r: State, e: Pending, born: nat, fact: Fact)
    requires EndsAt(states, actions, s) && Shows(s, e, born, fact)
    ensures Sometime(states + [r], e, born, fact)
  {
    hide Shows;
    assert (states + [r])[|states| - 1] == s;
  }

  // ---------- each step keeps the history ----------

  /** Steps of other threads and of the kernel leave the entry in hand alone, and no pinned process that
      was gone comes back. */
  lemma OtherStepKeepsHistory(states: seq<State>, actions: seq<Action>, s: State, a: Action)
    requires History(states, actions, s) && Enabled(s, a) && !a.Killer?
    ensures History(states + [Step(s, a)], actions + [a], Step(s, a))
  {
    hide Inv, HandAt, Grounded;
    StepKeepsInv(s, a);
    var r := Step(s, a);
    InvInHand(s);
    OldKillsStay(states, s, r, actions, a);
    match s.stage {
      case CheckUid(i, ev) => GoneStaysGone(s, a, i); StaysHandAt(states, s, r, actions, a, s.pending[i], ev, 1);
      case FetchNames(i, ev) => GoneStaysGone(s, a, i); StaysHandAt(states, s, r, actions, a, s.pending[i], ev, 2);
      case ReadName(i, ev) => GoneStaysGone(s, a, i); StaysHandAt(states, s, r, actions, a, s.pending[i], ev, 3);
      case Signal(i, ev) => GoneStaysGone(s, a, i); StaysHandAt(states, s, r, actions, a, s.pending[i], ev, 4);
      case _ =>
    }
  }

  lemma InvInHand(s: State)
    requires Inv(s)
    ensures InHand(s)
  {}

  lemma GoneStaysGone(s: State, a: Action, i: nat)
    requires Inv(s) && Enabled(s, a) && !a.Killer? && i < |s.pending|
    ensures var e, r := s.pending[i], Step(s, a);
      && r.kernel.fds == s.kernel.fds && r.pending == s.pending && r.stage == s.stage && r.kills == s.kills
      && (e.fd in s.kernel.fds && Exists(r.kernel, s.kernel.fds[e.fd]) ==> Exists(s.kernel, s.kernel.fds[e.fd]))
  {
    hide Owned, Deciding, Justified;
    assert s.pending[i] in s.pending;
  }

  lemma ReadOomKeepsHistory(states: seq<State>, actions: seq<Action>, s: State, call: Outcome)
    requires History(states, actions, s) && EndsAt(states, actions, s) && s.stage.ReadOom? && Inv(KillerStep(s, call))
    ensures History(states + [KillerStep(s, call)], actions + [Killer(call)], KillerStep(s, call))
  {
    hide Inv, Grounded, Sometime, Finish;
    var i, r := s.stage.i, KillerStep(s, call);
    InvInHand(s);
    var e := s.pending[i];
    FinishKeepsKills(s, i);
    OldKillsStay(states, s, r, actions, Killer(call));
    if r.stage.CheckUid? && e.fd in s.kernel.fds && Exists(s.kernel, s.kernel.fds[e.fd]) {
      PinnedNow(s, i);
      ShownNow(states, actions, s, r, e, s.kernel.fds[e.fd], Triggered);
    }
  }

  lemma PinnedNow(s: State, i: nat)
    requires Inv(s) && i < |s.pending|
    ensures s.pending[i] in s.pending
    ensures var e := s.pending[i];
      e.fd in s.kernel.fds && Exists(s.kernel, s.kernel.fds[e.fd]) ==>
        e.pid in s.kernel.procs && s.kernel.procs[e.pid].born == s.kernel.fds[e.fd]
  {
    hide Owned, Deciding, Justified;
    var e := s.pending[i];
    assert e in s.pending;
    if e.fd in s.kernel.fds && Exists(s.kernel, s.kernel.fds[e.fd]) {
      PinnedRead(s.kernel, s.kernel.fds[e.fd], e.pid);
    }
  }

  lemma FinishKeepsKills(s: State, i: nat)
    requires i < |s.pending|
    ensures Finish(s, i).kills == s.kills && Finish(s, i).stage == Poll(i)
  {}

  lemma CheckUidKeepsHistory(states: seq<State>, actions: seq<Action>, s: State, call: Outcome)
    requires History(states, actions, s) && EndsAt(states, actions, s) && (s.stage.CheckUid? || s.stage.FetchNames?)
    requires Inv(KillerStep(s, call))
    ensures History(states + [KillerStep(s, call)], actions + [Killer(call)], KillerStep(s, call))
  {
    hide Inv, Grounded, Sometime, Finish, NamesFor, Exists, Logged;
    var i, ev, r := s.stage.i, s.stage.ev, KillerStep(s, call);
    InvInHand(s);
    var e := s.pending[i];
    PinnedNow(s, i);
    FinishKeepsKills(s, i);
    OldKillsStay(states, s, r, actions, Killer(call));
    if !r.stage.Poll? && e.fd in s.kernel.fds && Exists(s.kernel, s.kernel.fds[e.fd]) {
      var born := s.kernel.fds[e.fd];
      StaysSometime(states, r, e, born, Triggered);
      StaysSometime(states, r, e, born, Listed);
      if s.stage.CheckUid? {
        ShownNow(states, actions, s, r, e, born, Listed);
      } else {
        ShownNow(states, actions, s, r, e, born, Names(NamesFor(s.index, e.uid)));
        NothingSeen(s);
        EmptyLog(states + [r], actions + [Killer(call)], e, born);
      }
    }
  }

  lemma NothingSeen(s: State)
    requires Inv(s) && s.stage.FetchNames?
    ensures s.stage.ev.seen == []
  {}

  lemma EmptyLog(states: seq<State>, actions: seq<Action>, e: Pending, born: nat)
    ensures Logged(states, actions, e, born, [])
  {
    assert LoggedAt(states, actions, e, born, [], []);
  }

  lemma ReadNameKeepsHistory(states: seq<State>, actions: seq<Action>, s: State, call: Outcome)
    requires History(states, actions, s) && EndsAt(states, actions, s) && s.stage.ReadName? && Inv(KillerStep(s, call))
    ensures History(states + [KillerStep(s, call)], actions + [Killer(call)], KillerStep(s, call))
  {
    hide Inv, Grounded, Sometime, Finish, NamesFor, Exists, AllUnreadable, Logged, ReadAt, CarriesOne;
    var i, ev, r := s.stage.i, s.stage.ev, KillerStep(s, call);
    InvInHand(s);
    var e := s.pending[i];
    PinnedNow(s, i);
    FinishKeepsKills(s, i);
    OldKillsStay(states, s, r, actions, Killer(call));
    StaysHandAt(states, s, r.(kernel := s.kernel), actions, Killer(call), e, ev, 3);
    if !r.stage.Poll? && e.fd in s.kernel.fds && Exists(s.kernel, s.kernel.fds[e.fd]) {
      var read := r.stage.ev.seen[|ev.seen|];
      ReadNow(states, r, actions, s, call, read);
      LogOneMore(states, r, actions, Killer(call), e, s.kernel.fds[e.fd], ev.seen, read);
    }
    if r.stage.Signal? && e.fd in s.kernel.fds && Exists(s.kernel, s.kernel.fds[e.fd]) {
      var read := r.stage.ev.seen[|ev.seen|];
      if read.name.Some? && read.name.value in NamesFor(ev.index, e.uid) {
        ShownNow(states, actions, s, r, e, s.kernel.fds[e.fd], Carries(read.name.value));
        OneCarried(states + [r], e, s.kernel.fds[e.fd], NamesFor(ev.index, e.uid), read.name.value);
      }
      SeenLength(s);
    }
  }

  lemma OneCarried(states: seq<State>, e: Pending, born: nat, names: seq<string>, name: string)
    requires name in names && Sometime(states, e, born, Carries(name))
    ensures CarriesOne(states, e, born, names)
  {}

  /** The step just taken reads a name, and its answer is noted down. */
  lemma ReadNow(states: seq<State>, r: State, actions: seq<Action>, s: State, call: Outcome, read: NameRead)
    requires EndsAt(states, actions, s) && s.stage.ReadName? && s.stage.i < |s.pending|
    requires var e := s.pending[s.stage.i];
      && e.fd in s.kernel.fds
      && read == if call.Fails? then ReadNameOf(s.kernel, e.pid).(name := None) else ReadNameOf(s.kernel, e.pid)
    ensures var e := s.pending[s.stage.i];
      ReadAt(states + [r], actions + [Killer(call)], |actions|, e, s.kernel.fds[e.fd], read.name)
  {
    assert (states + [r])[|actions|] == s && (actions + [Killer(call)])[|actions|] == Killer(call);
  }

  lemma SeenLength(s: State)
    requires Inv(s) && s.stage.ReadName?
    ensures |s.stage.ev.seen| < IDENTITY_TRIES
  {}

  lemma SignalKeepsHistory(states: seq<State>, actions: seq<Action>, s: State, call: Outcome)
    requires History(states, actions, s) && EndsAt(states, actions, s) && s.stage.Signal? && Inv(KillerStep(s, call))
    ensures History(states + [KillerStep(s, call)], actions + [Killer(call)], KillerStep(s, call))
  {
    hide Inv, Sometime, NamesFor, CarriesOne, NeverReadable, Logged, AllUnreadable;
    var i, ev, r := s.stage.i, s.stage.ev, KillerStep(s, call);
    InvInHand(s);
    var e := s.pending[i];
    OldKillsStay(states, s, r, actions, Killer(call));
    if r.kills != s.kills {
      var born := s.kernel.fds[e.fd];
      assert Exists(s.kernel, born);
      if |ev.seen| == IDENTITY_TRIES && AllUnreadable(ev.seen) {
        LoggedUnreadable(states, actions, e, born, ev.seen);
      }
      assert Grounded(states, actions, e, born);
      StaysGrounded(states, r, actions, Killer(call), e, born);
    }
  }

  lemma KillerKeepsHistory(states: seq<State>, actions: seq<Action>, s: State, call: Outcome)
    requires History(states, actions, s) && EndsAt(states, actions, s) && Enabled(s, Killer(call))
    ensures History(states + [KillerStep(s, call)], actions + [Killer(call)], KillerStep(s, call))
  {
    hide Inv, KillerStep, HandGrounded, Grounded, History;
    HistoryHasInv(states, actions, s);
    StepKeepsInv(s, Killer(call));
    KillerIsStep(s, call);
    match s.stage {
      case ReadOom(_) => ReadOomKeepsHistory(states, actions, s, call);
      case CheckUid(_, _) => CheckUidKeepsHistory(states, actions, s, call);
      case FetchNames(_, _) => CheckUidKeepsHistory(states, actions, s, call);
      case ReadName(_, _) => ReadNameKeepsHistory(states, actions, s, call);
      case Signal(_, _) => SignalKeepsHistory(states, actions, s, call);
      case _ => IdleKeepsHistory(states, actions, s, call);
    }
  }

  lemma HistoryHasInv(states: seq<State>, actions: seq<Action>, s: State)
    requires History(states, actions, s)
    ensures Inv(s)
  {}

  /** Steps without an entry under decision. */
  lemma IdleKeepsHistory(states: seq<State>, actions: seq<Action>, s: State, call: Outcome)
    requires History(states, actions, s) && Inv(KillerStep(s, call))
    requires s.stage.Receive? || s.stage.Open? || s.stage.Collect? || s.stage.Poll? || s.stage.CloseFd?
      || s.stage.Shutdown? || s.stage.Exited?
    ensures History(states + [KillerStep(s, call)], actions + [Killer(call)], KillerStep(s, call))
  {
    hide Inv, Grounded, SwapRemove;
    OldKillsStay(states, s, KillerStep(s, call), actions, Killer(call));
  }

  // ---------- every kill of every run ----------

  lemma {:induction false} TraceKeepsHistory(states: seq<State>, actions: seq<Action>)
    requires IsTrace(states, actions) && Init(states[0])
    ensures History(states, actions, states[|actions|])
    decreases |actions|
  {
    hide Init, Inv, Step, Enabled, Grounded, HandGrounded;
    if actions == [] {
      FirstState(states[0]);
      assert states == [states[0]];
    } else {
      var n := |actions| - 1;
      var before, a := states[..n + 1], actions[n];
      TraceKeepsHistory(before, actions[..n]);
      assert states == before + [states[n + 1]] && actions == actions[..n] + [a];
      if a.Killer? {
        KillerKeepsHistory(before, actions[..n], states[n], a.call);
        KillerIsStep(states[n], a.call);
      } else {
        OtherStepKeepsHistory(before, actions[..n], states[n], a);
      }
    }
  }

  lemma KillerIsStep(s: State, call: Outcome)
    requires Enabled(s, Killer(call))
    ensures Step(s, Killer(call)) == KillerStep(s, call)
  {}

  lemma FirstState(s: State)
    requires Init(s)
    ensures History([s], [], s)
  {
    InitHolds(s);
  }

  /** In every run, every SIGKILL delivered on the checked paths goes back to an event of its pid and uid, for
      which the descriptor was opened; and while the descriptor was open and pinned the very process that
      was hit, that process had foreground score 0 or 300 ms had passed since the descriptor was opened,
      its uid was on the block list, names were listed for the uid, and the process carried one of them or
      twenty steps read its name and got none. */
  lemma KillsAreGrounded(states: seq<State>, actions: seq<Action>)
    requires IsTrace(states, actions) && Init(states[0])
    ensures forall k | k in states[|actions|].kills ::
      && IsReported(states, actions, k.entry, k.born)
      && Sometime(states, k.entry, k.born, Triggered)
      && Sometime(states, k.entry, k.born, Listed)
      && exists names | names != [] ::
           && Sometime(states, k.entry, k.born, Names(names))
           && (CarriesOne(states, k.entry, k.born, names) || NeverReadable(states, actions, k.entry, k.born))
  {
    hide IsTrace, Init, Sometime, CarriesOne, NeverReadable, Inv, HandGrounded, IsReported;
    TraceKeepsHistory(states, actions);
    EntriesAreEvents(states, actions);
  }
}
