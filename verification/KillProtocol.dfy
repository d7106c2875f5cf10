/** The gate's kill path as a protocol: processes come and go and pids are reused while the drain
    thread queues events, the engine edits the block list and the killer thread works through its
    pending list. Every system call, lock section and environment change is one atomic step. */
module KillProtocol {
  import opened Rules

  const TIMEOUT_MS := 300
  const IDENTITY_TRIES := 20

  // ---------- the system ----------

  /** A process. `born` identifies this incarnation: no two processes ever share it. An exited
      process is a zombie that keeps its pid until it is reaped. */
  datatype Proc = Proc(born: nat, zombie: bool, oom: int, name: Option<string>)

  /** Pids in use, the number of processes born so far, and the incarnation each open descriptor pins. */
  datatype Kernel = Kernel(procs: map<nat, Proc>, births: nat, fds: map<nat, nat>)

  datatype Pending = Pending(fd: nat, pid: nat, uid: Uid, since: nat)

  /** A name read: the incarnation at the pid (none when the pid was free) and the name, if readable. */
  datatype NameRead = NameRead(born: Option<nat>, name: Option<string>)

  /** What the killer has read about the entry it is deciding: the foreground score and whose it was,
      the entry's age then, the block list and the name index as they were when it looked, and every
      name read so far. */
  datatype Evidence = Evidence(
    oomBorn: nat,
    oom: int,
    ageMs: nat,
    mirror: set<Uid>,
    index: map<Uid, seq<string>>,
    seen: seq<NameRead>)

  /** Where the killer thread is. The index is the entry of the pending list in hand. */
  datatype Stage =
    | Receive
    | Open(pid: nat, uid: Uid)
    | Collect
    | Poll(i: nat)
    | ReadOom(i: nat)
    | CheckUid(i: nat, ev: Evidence)
    | FetchNames(i: nat, ev: Evidence)
    | ReadName(i: nat, ev: Evidence)
    | Signal(i: nat, ev: Evidence)
    | CloseFd(i: nat)
    | Shutdown
    | Exited

  /** A delivered SIGKILL: the process it hit, the entry it was sent for, and the evidence. */
  datatype Kill = Kill(born: nat, entry: Pending, ev: Evidence)

  datatype State = State(
    kernel: Kernel,
    clock: nat,
    mirror: set<Uid>,
    index: map<Uid, seq<string>>,
    queue: seq<(nat, Uid)>,
    senderAlive: bool,
    pending: seq<Pending>,
    stage: Stage,
    kills: seq<Kill>,
    strayCloses: nat)

  // ---------- steps ----------

  datatype Action =
    // processes
    | Spawn(pid: nat, oom: int, name: Option<string>)
    | Exit(pid: nat)
    | Reap(pid: nat)
    | Rename(pid: nat, name: Option<string>)
    | SetOom(pid: nat, oom: int)
    | Elapse(ms: nat)
    // engine
    | SetBlocked(uid: Uid, blocked: bool)
    | SetIndex(index: map<Uid, seq<string>>)
    // drain thread
    | Send(pid: nat, uid: Uid)
    | DropSender
    // killer thread
    | Killer(call: Outcome)

  /** How the system call of a killer step turns out. The number of a new descriptor is the kernel's
      choice; other calls ignore it. */
  datatype Outcome = Fails | Succeeds(fd: nat)

  function SwapRemove(s: seq<Pending>, i: nat): (r: seq<Pending>)
    requires i < |s|
  {
    var n := |s| - 1;
    if i == n then s[..n] else s[..n][i := s[n]]
  }

  function Close(s: State, fd: nat): State {
    if fd in s.kernel.fds then s.(kernel := s.kernel.(fds := s.kernel.fds - {fd}))
    else s.(strayCloses := s.strayCloses + 1)
  }

  /** Closes the entry's descriptor, drops the entry, and looks at what took its place. */
  function Finish(s: State, i: nat): State
    requires i < |s.pending|
  {
    Close(s, s.pending[i].fd).(pending := SwapRemove(s.pending, i), stage := Poll(i))
  }

  /** A name read through the pid, as the process file system answers it. */
  function ReadNameOf(k: Kernel, pid: nat): NameRead {
    if pid !in k.procs then NameRead(None, None)
    else if k.procs[pid].zombie then NameRead(Some(k.procs[pid].born), None)
    else NameRead(Some(k.procs[pid].born), k.procs[pid].name)
  }

  /** The incarnation still has a pid, if only as a zombie. */
  predicate Exists(k: Kernel, born: nat) {
    exists pid | pid in k.procs :: k.procs[pid].born == born
  }

  ghost predicate RunningSomewhere(k: Kernel, born: nat) {
    exists pid | pid in k.procs :: k.procs[pid].born == born && !k.procs[pid].zombie
  }

  /** SIGKILL through a descriptor reaches the process it pins, wherever it is, if it still runs. */
  ghost function Deliver(s: State, e: Pending, ev: Evidence): State {
    if e.fd in s.kernel.fds && RunningSomewhere(s.kernel, s.kernel.fds[e.fd])
    then s.(kills := s.kills + [Kill(s.kernel.fds[e.fd], e, ev)])
    else s
  }

  /** The names listed for a uid; a uid without an entry or with an empty one has none. */
  function NamesFor(index: map<Uid, seq<string>>, uid: Uid): seq<string> {
    if uid in index then index[uid] else []
  }

  predicate AllUnreadable(seen: seq<NameRead>) {
    forall r | r in seen :: r.name.None?
  }

  /** The killer thread's next step. */
  ghost function KillerStep(s: State, call: Outcome): State {
    match s.stage
    case Receive =>
      if s.queue != [] then s.(stage := Open(s.queue[0].0, s.queue[0].1), queue := s.queue[1..])
      else if !s.senderAlive then s.(stage := Shutdown)
      else if s.pending != [] then s.(stage := Poll(0))
      else s
    case Open(pid, uid) =>
      if call.Succeeds? && pid in s.kernel.procs && call.fd !in s.kernel.fds then
        s.(kernel := s.kernel.(fds := s.kernel.fds[call.fd := s.kernel.procs[pid].born]),
           pending := s.pending + [Pending(call.fd, pid, uid, s.clock)], stage := Collect)
      else s.(stage := Collect)
    case Collect =>
      if s.queue != [] then s.(stage := Open(s.queue[0].0, s.queue[0].1), queue := s.queue[1..])
      else s.(stage := Poll(0))
    case Poll(i) =>
      if i >= |s.pending| then s.(stage := Receive)
      else
        var e := s.pending[i];
        if call.Succeeds? && e.fd in s.kernel.fds && !RunningSomewhere(s.kernel, s.kernel.fds[e.fd]) then Finish(s, i)
        else s.(stage := ReadOom(i))
    case ReadOom(i) =>
      if i >= |s.pending| then s
      else
        var e := s.pending[i];
        if call.Fails? || e.pid !in s.kernel.procs then Finish(s, i)
        else
          var p := s.kernel.procs[e.pid];
          var age := if s.clock < e.since then 0 else s.clock - e.since;
          if p.oom == 0 || age >= TIMEOUT_MS
          then s.(stage := CheckUid(i, Evidence(p.born, p.oom, age, {}, map[], [])))
          else s.(stage := Poll(i + 1))
    case CheckUid(i, ev) =>
      if i >= |s.pending| then s
      else if s.pending[i].uid !in s.mirror then Finish(s, i)
      else s.(stage := FetchNames(i, ev.(mirror := s.mirror)))
    case FetchNames(i, ev) =>
      if i >= |s.pending| then s
      else
        if NamesFor(s.index, s.pending[i].uid) == [] then Finish(s, i)
        else s.(stage := ReadName(i, ev.(index := s.index)))
    case ReadName(i, ev) =>
      if i >= |s.pending| then s
      else
        var e := s.pending[i];
        var answer := ReadNameOf(s.kernel, e.pid);
        var read := if call.Fails? then answer.(name := None) else answer;
        var ev1 := ev.(seen := ev.seen + [read]);
        if read.name.Some? && read.name.value in NamesFor(ev.index, e.uid) then s.(stage := Signal(i, ev1))
        else if |ev1.seen| < IDENTITY_TRIES then s.(stage := ReadName(i, ev1))
        else if AllUnreadable(ev1.seen) then s.(stage := Signal(i, ev1))
        else Finish(s, i)
    case Signal(i, ev) =>
      if i >= |s.pending| then s
      else (if call.Succeeds? then Deliver(s, s.pending[i], ev) else s).(stage := CloseFd(i))
    case CloseFd(i) =>
      if i >= |s.pending| then s else Finish(s, i)
    case Shutdown =>
      if s.pending == [] then s.(stage := Exited)
      else Close(s, s.pending[0].fd).(pending := s.pending[1..])
    case Exited => s
  }

  ghost predicate Enabled(s: State, a: Action) {
    match a
    case Spawn(pid, _, _) => pid !in s.kernel.procs
    case Exit(pid) => pid in s.kernel.procs && !s.kernel.procs[pid].zombie
    case Reap(pid) => pid in s.kernel.procs && s.kernel.procs[pid].zombie
    case Rename(pid, _) => pid in s.kernel.procs
    case SetOom(pid, _) => pid in s.kernel.procs
    case Killer(call) => call.Succeeds? ==> call.fd !in s.kernel.fds
    case Send(_, _) => s.senderAlive
    case _ => true
  }

  function SetProc(s: State, pid: nat, p: Proc): State {
    s.(kernel := s.kernel.(procs := s.kernel.procs[pid := p]))
  }

  ghost function Step(s: State, a: Action): State
    requires Enabled(s, a)
  {
    match a
    case Spawn(pid, oom, name) =>
      var k := s.kernel;
      s.(kernel := k.(procs := k.procs[pid := Proc(k.births, false, oom, name)], births := k.births + 1))
    case Exit(pid) => SetProc(s, pid, s.kernel.procs[pid].(zombie := true))
    case Reap(pid) => s.(kernel := s.kernel.(procs := s.kernel.procs - {pid}))
    case Rename(pid, name) => SetProc(s, pid, s.kernel.procs[pid].(name := name))
    case SetOom(pid, oom) => SetProc(s, pid, s.kernel.procs[pid].(oom := oom))
    case Elapse(ms) => s.(clock := s.clock + ms)
    case SetBlocked(uid, blocked) => s.(mirror := if blocked then s.mirror + {uid} else s.mirror - {uid})
    case SetIndex(index) => s.(index := index)
    case Send(pid, uid) => s.(queue := s.queue + [(pid, uid)])
    case DropSender => s.(senderAlive := false)
    case Killer(call) => KillerStep(s, call)
  }

  /** The gate has just started: no descriptor is open and nothing is queued. */
  ghost predicate Init(s: State) {
    && s.queue == [] && s.pending == [] && s.kills == [] && s.stage == Receive
    && s.kernel.fds == map[] && s.strayCloses == 0
    && Distinct(s.kernel)
  }

  /** Incarnations are numbered by birth and no two live processes share one. */
  ghost predicate Distinct(k: Kernel) {
    && (forall p | p in k.procs :: k.procs[p].born < k.births)
    && (forall p, q | p in k.procs && q in k.procs && p != q :: k.procs[p].born != k.procs[q].born)
  }

  ghost predicate IsRun(s: State, actions: seq<Action>)
    decreases |actions|
  {
    actions != [] ==> Enabled(s, actions[0]) && IsRun(Step(s, actions[0]), actions[1..])
  }

  ghost function Final(s: State, actions: seq<Action>): State
    requires IsRun(s, actions)
    decreases |actions|
  {
    if actions == [] then s else Final(Step(s, actions[0]), actions[1..])
  }

  // ---------- descriptor ownership ----------

  /** The entry in hand, when there is one, is in the pending list. */
  predicate InHand(s: State) {
    match s.stage
    case ReadOom(i) => i < |s.pending|
    case CheckUid(i, _) => i < |s.pending|
    case FetchNames(i, _) => i < |s.pending|
    case ReadName(i, _) => i < |s.pending|
    case Signal(i, _) => i < |s.pending|
    case CloseFd(i) => i < |s.pending|
    case Exited => s.pending == []
    case _ => true
  }

  /** Open descriptors are exactly those of the pending entries, each held by one entry; nothing was
      ever closed that was not open. */
  ghost predicate Owned(s: State) {
    && InHand(s)
    && s.strayCloses == 0
    && DistinctFds(s.pending)
    && s.kernel.fds.Keys == FdsOf(s.pending)
  }

  predicate DistinctFds(pending: seq<Pending>) {
    forall i, j | 0 <= i < j < |pending| :: pending[i].fd != pending[j].fd
  }

  function FdsOf(pending: seq<Pending>): set<nat> {
    set e | e in pending :: e.fd
  }

  // ---------- pinning ----------

  /** An incarnation pinned at a pid is at that pid or nowhere: processes do not move. */
  ghost predicate PinnedAt(k: Kernel, born: nat, pid: nat) {
    && born < k.births
    && forall p | p in k.procs && k.procs[p].born == born :: p == pid
  }

  /** Every read was of the pinned incarnation, unless that one is gone for good. */
  ghost predicate ReadsPinned(k: Kernel, born: nat, ev: Evidence) {
    Exists(k, born) ==> ReadsOf(born, ev)
  }

  predicate ReadsOf(born: nat, ev: Evidence) {
    ev.oomBorn == born && forall r | r in ev.seen :: r.born == Some(born)
  }

  ghost predicate EvidencePinned(s: State, i: nat, ev: Evidence) {
    i < |s.pending| && s.pending[i].fd in s.kernel.fds ==> ReadsPinned(s.kernel, s.kernel.fds[s.pending[i].fd], ev)
  }

  predicate TriggerSeen(ev: Evidence) {
    ev.oom == 0 || ev.ageMs >= TIMEOUT_MS
  }

  /** The identity check passed: the last name read is a listed one, or twenty reads showed none. */
  predicate IdentityConfirmed(ev: Evidence, uid: Uid) {
    var names := NamesFor(ev.index, uid);
    && names != [] && ev.seen != []
    && var last := ev.seen[|ev.seen| - 1].name;
      || (last.Some? && last.value in names)
      || (|ev.seen| == IDENTITY_TRIES && AllUnreadable(ev.seen))
  }

  /** What the evidence in hand establishes at each stage. */
  ghost predicate Deciding(s: State)
    requires InHand(s)
  {
    match s.stage
    case CheckUid(i, ev) => EvidencePinned(s, i, ev) && TriggerSeen(ev) && ev.seen == []
    case FetchNames(i, ev) =>
      EvidencePinned(s, i, ev) && TriggerSeen(ev) && ev.seen == [] && s.pending[i].uid in ev.mirror
    case ReadName(i, ev) =>
      && EvidencePinned(s, i, ev) && TriggerSeen(ev) && s.pending[i].uid in ev.mirror
      && NamesFor(ev.index, s.pending[i].uid) != [] && |ev.seen| < IDENTITY_TRIES
    case Signal(i, ev) =>
      && EvidencePinned(s, i, ev) && TriggerSeen(ev) && s.pending[i].uid in ev.mirror
      && IdentityConfirmed(ev, s.pending[i].uid)
    case _ => true
  }

  /** A kill hit the incarnation its evidence is about: the foreground or timeout trigger and every
      name were read from that very process, its event uid was on the block list when checked, and
      its identity was confirmed. */
  ghost predicate Justified(k: Kill) {
    && ReadsOf(k.born, k.ev)
    && TriggerSeen(k.ev)
    && k.entry.uid in k.ev.mirror
    && IdentityConfirmed(k.ev, k.entry.uid)
  }

  ghost predicate Pinned(s: State) {
    forall e | e in s.pending && e.fd in s.kernel.fds :: PinnedAt(s.kernel, s.kernel.fds[e.fd], e.pid)
  }

  ghost predicate Inv(s: State) {
    && Distinct(s.kernel)
    && Owned(s)
    && Pinned(s)
    && Deciding(s)
    && forall k | k in s.kills :: Justified(k)
  }

  // ---------- the invariant is kept ----------

  /** What changes to processes preserve: no live incarnation older than now appears or moves. */
  ghost predicate Evolves(k: Kernel, n: Kernel) {
    && n.fds == k.fds && k.births <= n.births
    && forall p | p in n.procs && n.procs[p].born < k.births :: p in k.procs && k.procs[p].born == n.procs[p].born
  }

  lemma ProcessStepEvolves(s: State, a: Action)
    requires Distinct(s.kernel) && Enabled(s, a) && (a.Spawn? || a.Exit? || a.Reap? || a.Rename? || a.SetOom?)
    ensures Step(s, a) == s.(kernel := Step(s, a).kernel)
    ensures Evolves(s.kernel, Step(s, a).kernel) && Distinct(Step(s, a).kernel)
  {}

  lemma EvolvingKeepsInv(s: State, n: Kernel)
    requires Inv(s) && Evolves(s.kernel, n) && Distinct(n)
    ensures Inv(s.(kernel := n))
  {
    hide IdentityConfirmed, ReadsOf, TriggerSeen, Justified;
    var r := s.(kernel := n);
    forall born, pid | PinnedAt(s.kernel, born, pid) ensures PinnedAt(n, born, pid) {}
    forall born: nat | born < s.kernel.births && Exists(n, born) ensures Exists(s.kernel, born) {}
    forall i: nat, ev | i < |s.pending| && EvidencePinned(s, i, ev) ensures EvidencePinned(r, i, ev) {
      assert s.pending[i] in s.pending;
    }
  }

  /** Removing an entry leaves each of the others, once. */
  lemma SwapRemoveSpec(s: seq<Pending>, i: nat)
    requires i < |s|
    ensures multiset(SwapRemove(s, i)) == multiset(s) - multiset{s[i]}
    ensures forall e :: e in SwapRemove(s, i) ==> e in s
  {
    hide SwapRemove;
    var n := |s| - 1;
    if i == n {
      LastRemoved(s, i);
      PartsAsMultiset(s, s[..n], s[n]);
    } else {
      var a, b, r := s[..i], s[i + 1..n], SwapRemove(s, i);
      SwapRemoveParts(s, i);
      FourParts(s, r, a, s[i], b, s[n]);
    }
    KeptMembers(s, SwapRemove(s, i), s[i]);
  }

  lemma PartsAsMultiset(s: seq<Pending>, a: seq<Pending>, x: Pending)
    requires s == a + [x]
    ensures multiset(a) == multiset(s) - multiset{x}
  {}

  lemma FourParts(s: seq<Pending>, r: seq<Pending>, a: seq<Pending>, x: Pending, b: seq<Pending>, y: Pending)
    requires s == a + [x] + b + [y] && r == a + [y] + b
    ensures multiset(r) == multiset(s) - multiset{x}
  {}

  lemma KeptMembers(s: seq<Pending>, r: seq<Pending>, x: Pending)
    requires multiset(r) == multiset(s) - multiset{x}
    ensures forall e :: e in r ==> e in s
  {
    forall e | e in r ensures e in s {
      assert e in multiset(r) && e in multiset(s);
    }
  }

  lemma LastRemoved(s: seq<Pending>, i: nat)
    requires i < |s|
    ensures i == |s| - 1 ==> SwapRemove(s, i) == s[..i] && s == s[..i] + [s[i]]
  {}

  lemma SwapRemoveParts(s: seq<Pending>, i: nat)
    requires i < |s| - 1
    ensures var n := |s| - 1;
      && s == s[..i] + [s[i]] + s[i + 1..n] + [s[n]]
      && SwapRemove(s, i) == s[..i] + [s[n]] + s[i + 1..n]
  {}

  lemma SwapRemoveFds(s: seq<Pending>, i: nat)
    requires i < |s| && DistinctFds(s)
    ensures DistinctFds(SwapRemove(s, i))
    ensures FdsOf(SwapRemove(s, i)) == FdsOf(s) - {s[i].fd}
  {
    var n, r := |s| - 1, SwapRemove(s, i);
    assert forall j | 0 <= j < n :: r[j] == if j == i then s[n] else s[j];
    forall fd | fd in FdsOf(s) && fd != s[i].fd ensures fd in FdsOf(r) {
      var j :| 0 <= j < |s| && s[j].fd == fd;
      assert r[if j == n then i else j] in r;
    }
    forall fd | fd in FdsOf(r) ensures fd in FdsOf(s) && fd != s[i].fd {
      var j :| 0 <= j < |r| && r[j].fd == fd;
      assert s[if j == i then n else j] in s;
    }
  }

  lemma FinishKeepsInv(s: State, i: nat)
    requires Inv(s) && i < |s.pending|
    ensures Inv(Finish(s, i))
  {
    hide Justified, SwapRemove, FdsOf, DistinctFds;
    FdOfMember(s.pending, i);
    SwapRemoveFds(s.pending, i);
    SwapRemoveSpec(s.pending, i);
  }

  lemma FdOfMember(s: seq<Pending>, i: nat)
    requires i < |s|
    ensures s[i].fd in FdsOf(s)
  {
    assert s[i] in s;
  }

  lemma AppendFds(s: seq<Pending>, e: Pending)
    requires DistinctFds(s) && e.fd !in FdsOf(s)
    ensures DistinctFds(s + [e]) && FdsOf(s + [e]) == FdsOf(s) + {e.fd}
    ensures forall x :: x in s + [e] <==> x in s || x == e
    ensures forall x | x in s :: x.fd != e.fd
  {
    forall i | 0 <= i < |s| ensures s[i].fd != e.fd { FdOfMember(s, i); }
    forall fd | fd in FdsOf(s) + {e.fd} ensures fd in FdsOf(s + [e]) {
      if fd != e.fd {
        var x :| x in s && x.fd == fd;
        assert x in s + [e];
      } else {
        assert e in s + [e];
      }
    }
  }

  lemma DropFirstFds(s: seq<Pending>)
    requires s != [] && DistinctFds(s)
    ensures DistinctFds(s[1..]) && FdsOf(s[1..]) == FdsOf(s) - {s[0].fd}
    ensures forall x | x in s[1..] :: x in s
  {
    assert s == [s[0]] + s[1..];
    AppendFdsFront(s[0], s[1..]);
  }

  lemma AppendFdsFront(e: Pending, s: seq<Pending>)
    requires DistinctFds([e] + s)
    ensures DistinctFds(s) && FdsOf([e] + s) == {e.fd} + FdsOf(s) && e.fd !in FdsOf(s)
  {
    forall i, j | 0 <= i < j < |s| ensures s[i].fd != s[j].fd {
      assert ([e] + s)[i + 1] == s[i] && ([e] + s)[j + 1] == s[j];
    }
    forall x | x in s ensures x.fd != e.fd {
      var j :| 0 <= j < |s| && s[j] == x;
      assert ([e] + s)[j + 1] == x && ([e] + s)[0] == e;
    }
    assert forall x :: x in [e] + s <==> x == e || x in s;
  }

  lemma OpenKeepsInv(s: State, call: Outcome)
    requires Inv(s) && s.stage.Open? && (call.Succeeds? ==> call.fd !in s.kernel.fds)
    ensures Inv(KillerStep(s, call))
  {
    hide Justified, FdsOf, DistinctFds, Exists;
    if call.Succeeds? && call.fd !in s.kernel.fds {
      AppendFds(s.pending, Pending(call.fd, s.stage.pid, s.stage.uid, s.clock));
    }
  }

  /** What is read through the pid of a pinned incarnation is read from it, while it exists. */
  lemma PinnedRead(k: Kernel, born: nat, pid: nat)
    requires PinnedAt(k, born, pid) && Exists(k, born)
    ensures pid in k.procs && k.procs[pid].born == born
  {}

  lemma ReadOomKeepsInv(s: State, call: Outcome)
    requires Inv(s) && s.stage.ReadOom?
    ensures Inv(KillerStep(s, call))
  {
    hide Justified, Finish, Owned;
    var i := s.stage.i;
    OwnedInHand(s);
    var e := s.pending[i];
    FinishKeepsInv(s, i);
    OwnedOf(s, KillerStep(s, call));
    if e.pid in s.kernel.procs && e.fd in s.kernel.fds && Exists(s.kernel, s.kernel.fds[e.fd]) {
      assert e in s.pending;
      PinnedRead(s.kernel, s.kernel.fds[e.fd], e.pid);
    }
  }

  lemma OwnedInHand(s: State)
    requires Owned(s)
    ensures InHand(s)
  {}

  /** Ownership does not depend on what has been read. */
  lemma OwnedOf(s: State, r: State)
    requires Owned(s)
    ensures r.kernel.fds == s.kernel.fds && r.pending == s.pending && r.strayCloses == s.strayCloses && InHand(r)
      ==> Owned(r)
  {}

  lemma CheckUidKeepsInv(s: State, call: Outcome)
    requires Inv(s) && (s.stage.CheckUid? || s.stage.FetchNames? || s.stage.CloseFd?)
    ensures Inv(KillerStep(s, call))
  {
    hide Justified, Finish, Owned;
    OwnedInHand(s);
    OwnedOf(s, KillerStep(s, call));
    FinishKeepsInv(s, s.stage.i);
  }

  lemma ReadNameKeepsInv(s: State, call: Outcome)
    requires Inv(s) && s.stage.ReadName?
    ensures Inv(KillerStep(s, call))
  {
    hide Justified, Finish, Owned;
    var i, ev := s.stage.i, s.stage.ev;
    OwnedInHand(s);
    OwnedOf(s, KillerStep(s, call));
    FinishKeepsInv(s, i);
    var e := s.pending[i];
    assert e in s.pending;
    var read := ReadNameOf(s.kernel, e.pid);
    if e.fd in s.kernel.fds && Exists(s.kernel, s.kernel.fds[e.fd]) {
      PinnedRead(s.kernel, s.kernel.fds[e.fd], e.pid);
      assert read.born == Some(s.kernel.fds[e.fd]);
    }
  }

  lemma SignalKeepsInv(s: State, call: Outcome)
    requires Inv(s) && s.stage.Signal?
    ensures Inv(KillerStep(s, call))
  {
    hide Owned, TriggerSeen, IdentityConfirmed, ReadsOf;
    OwnedInHand(s);
    OwnedOf(s, KillerStep(s, call));
    var i := s.stage.i;
    var e := s.pending[i];
    if e.fd in s.kernel.fds && RunningSomewhere(s.kernel, s.kernel.fds[e.fd]) {
      assert Exists(s.kernel, s.kernel.fds[e.fd]);
    }
  }

  lemma ShutdownKeepsInv(s: State, call: Outcome)
    requires Inv(s) && s.stage.Shutdown?
    ensures Inv(KillerStep(s, call))
  {
    hide Justified, FdsOf, DistinctFds, Exists;
    if s.pending != [] {
      FdOfMember(s.pending, 0);
      DropFirstFds(s.pending);
    }
  }

  lemma OtherStagesKeepInv(s: State, call: Outcome)
    requires Inv(s) && (s.stage.Receive? || s.stage.Collect? || s.stage.Poll? || s.stage.Exited?)
    ensures Inv(KillerStep(s, call))
  {
    hide Justified, Finish, FdsOf, DistinctFds;
    if s.stage.Poll? && s.stage.i < |s.pending| {
      FinishKeepsInv(s, s.stage.i);
    }
  }

  lemma StepKeepsInv(s: State, a: Action)
    requires Inv(s) && Enabled(s, a)
    ensures Inv(Step(s, a))
  {
    hide Owned, Pinned, Distinct, Deciding, Justified, KillerStep;
    if a.Spawn? || a.Exit? || a.Reap? || a.Rename? || a.SetOom? {
      ProcessStepEvolves(s, a);
      EvolvingKeepsInv(s, Step(s, a).kernel);
    } else if a.Killer? {
      match s.stage {
        case Open(_, _) => OpenKeepsInv(s, a.call);
        case ReadOom(_) => ReadOomKeepsInv(s, a.call);
        case CheckUid(_, _) => CheckUidKeepsInv(s, a.call);
        case FetchNames(_, _) => CheckUidKeepsInv(s, a.call);
        case CloseFd(_) => CheckUidKeepsInv(s, a.call);
        case ReadName(_, _) => ReadNameKeepsInv(s, a.call);
        case Signal(_, _) => SignalKeepsInv(s, a.call);
        case Shutdown => ShutdownKeepsInv(s, a.call);
        case _ => OtherStagesKeepInv(s, a.call);
      }
    } else {
      OtherThreadsKeepInv(s, a);
    }
  }

  lemma OtherThreadsKeepInv(s: State, a: Action)
    requires Inv(s) && Enabled(s, a)
    requires a.Elapse? || a.SetBlocked? || a.SetIndex? || a.Send? || a.DropSender?
    ensures Inv(Step(s, a))
  {
    hide Justified, FdsOf, DistinctFds, Distinct, IdentityConfirmed, ReadsOf;
  }

  lemma InitHolds(s: State)
    requires Init(s)
    ensures Inv(s)
  {}

  lemma {:induction false} RunKeepsInv(s: State, actions: seq<Action>)
    requires Inv(s) && IsRun(s, actions)
    ensures Inv(Final(s, actions))
    decreases |actions|
  {
    hide Inv, Step, Enabled;
    if actions == [] {
    } else {
      StepKeepsInv(s, actions[0]);
      RunKeepsInv(Step(s, actions[0]), actions[1..]);
    }
  }

  // ---------- what holds in every run ----------

  /** In every interleaving with exits, pid reuse, renames and block list edits, each SIGKILL that the
      checked paths deliver is justified by reads of the very process it hits. */
  lemma KillsAreJustified(s: State, actions: seq<Action>)
    requires Init(s) && IsRun(s, actions)
    ensures forall k | k in Final(s, actions).kills ::
      && ReadsOf(k.born, k.ev)
      && TriggerSeen(k.ev)
      && k.entry.uid in k.ev.mirror
      && IdentityConfirmed(k.ev, k.entry.uid)
  {
    hide Init, IsRun, Final, ReadsOf, TriggerSeen, IdentityConfirmed;
    InitHolds(s);
    RunKeepsInv(s, actions);
  }

  /** In every run each opened descriptor belongs to exactly one pending entry until it is closed,
      nothing is closed twice, and none is left open when the killer thread exits. */
  lemma DescriptorsAreOwned(s: State, actions: seq<Action>)
    requires Init(s) && IsRun(s, actions)
    ensures var r := Final(s, actions);
      && r.strayCloses == 0
      && r.kernel.fds.Keys == FdsOf(r.pending) && DistinctFds(r.pending)
      && (r.stage.Exited? ==> r.kernel.fds == map[])
  {
    hide Init, IsRun, Final, DistinctFds;
    InitHolds(s);
    RunKeepsInv(s, actions);
  }
}
