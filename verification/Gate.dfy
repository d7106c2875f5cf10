/** The gate's userspace side: the block list with its mirror, the drain thread's event filter, the
    identity check and the killer thread's pass over its pending list. */
module GateThreads {
  import opened Rules
  import opened KillProtocol

  // ---------- the block list ----------

  /** The kernel's block map, the killer's mirror of it, and the blocked package names per uid. */
  class Gate {
    var blockMap: set<Uid>
    var mirror: set<Uid>
    var identity: map<Uid, seq<string>>

    constructor ()
      ensures blockMap == {} && mirror == {} && identity == map[]
    {
      blockMap, mirror, identity := {}, {}, map[];
    }

    method SetBlockIndex(names: map<Uid, seq<string>>)
      modifies this`identity
      ensures identity == names
    {
      identity := names;
    }

    /** The kernel's map update works or fails; when it fails nothing has changed. Removing an absent uid
        always fails. */
    method SetBlocked(uid: Uid, blocked: bool, works: bool) returns (ok: bool)
      modifies this`blockMap, this`mirror
      ensures ok == (works && (blocked || uid in old(blockMap)))
      ensures ok ==>
        && blockMap == (if blocked then old(blockMap) + {uid} else old(blockMap) - {uid})
        && mirror == (if blocked then old(mirror) + {uid} else old(mirror) - {uid})
      ensures !ok ==> blockMap == old(blockMap) && mirror == old(mirror)
    {
      if blocked {
        if !works { return false; }
        blockMap := blockMap + {uid};
        mirror := mirror + {uid};
      } else {
        if !works || uid !in blockMap { return false; }
        blockMap := blockMap - {uid};
        mirror := mirror - {uid};
      }
      return true;
    }
  }

  // ---------- the identity check ----------

  /** Reads a process's name until a wanted one shows up, `reads[k]` being the k-th answer, and falls
      back to the last name seen. */
  method PkgOfPidWait(answers: seq<Option<string>>, expected: seq<string>) returns (r: Option<string>)
    requires |answers| == IDENTITY_TRIES
    ensures r.None? <==> forall k | 0 <= k < |answers| :: answers[k].None?
    ensures r.Some? && r.value in expected <==>
      exists k | 0 <= k < |answers| :: answers[k].Some? && answers[k].value in expected
    ensures r.Some? ==> exists k | 0 <= k < |answers| ::
      && answers[k] == r
      && (forall j | 0 <= j < k :: answers[j].None? || answers[j].value !in expected)
      && (r.value in expected || forall j | k < j < |answers| :: answers[j].None?)
  {
    var seen: Option<string> := None;
    ghost var at := 0;
    for i := 0 to IDENTITY_TRIES
      invariant forall k | 0 <= k < i :: answers[k].None? || answers[k].value !in expected
      invariant seen.None? ==> forall k | 0 <= k < i :: answers[k].None?
      invariant seen.Some? ==> 0 <= at < i && answers[at] == seen && forall k | at < k < i :: answers[k].None?
    {
      if answers[i].Some? {
        if answers[i].value in expected {
          return answers[i];
        }
        seen, at := answers[i], i;
      }
    }
    return seen;
  }

  /** May a process be taken for one of the packages listed for its uid? */
  method IdentityOk(index: map<Uid, seq<string>>, uid: Uid, answers: seq<Option<string>>) returns (ok: bool)
    requires |answers| == IDENTITY_TRIES
    ensures ok <==>
      && NamesFor(index, uid) != []
      && ((exists k | 0 <= k < |answers| :: answers[k].Some? && answers[k].value in NamesFor(index, uid))
          || forall k | 0 <= k < |answers| :: answers[k].None?)
  {
    if uid !in index {
      return false;
    }
    var names := index[uid];
    if names == [] {
      return false;
    }
    var pkg := PkgOfPidWait(answers, names);
    ok := pkg.None? || pkg.value in names;
  }

  // ---------- the drain thread's event filter ----------

  const QUIET_MS := 5000
  const KEEP_MS := 10000
  const RECENT_MAX := 64

  /** An event with the three clock readings made while handling it. */
  datatype Report = Report(pid: nat, uid: Uid, checkedAt: nat, insertedAt: nat, prunedAt: nat)

  /** A ring buffer item; one too short to hold a pid and a uid is `None`. */
  type Item = Option<Report>

  /** A monotone clock: readings never go back, within an event or from one event to the next. */
  ghost predicate Monotone(items: seq<Item>, now: nat)
    decreases |items|
  {
    items != [] ==>
      match items[0]
      case None => Monotone(items[1..], now)
      case Some(e) =>
        now <= e.checkedAt <= e.insertedAt <= e.prunedAt && Monotone(items[1..], e.prunedAt)
  }

  /** The last clock reading made for the items. */
  function LastReading(items: seq<Item>, now: nat): nat
    decreases |items|
  {
    if items == [] then now
    else LastReading(items[1..], if items[0].Some? then items[0].value.prunedAt else now)
  }

  /** A clock is monotone over two batches exactly when it is over each, the second read after the first. */
  lemma {:induction false} MonotoneSplit(items: seq<Item>, rest: seq<Item>, now: nat)
    ensures Monotone(items + rest, now) <==> Monotone(items, now) && Monotone(rest, LastReading(items, now))
    decreases |items|
  {
    if items == [] {
      assert items + rest == rest;
    } else {
      assert (items + rest)[1..] == items[1..] + rest;
      MonotoneSplit(items[1..], rest, if items[0].Some? then items[0].value.prunedAt else now);
    }
  }

  /** The reference keeps the last send of every pid forever. */
  predicate IsSent(last: map<nat, nat>, e: Report) {
    e.pid in last ==> e.checkedAt - last[e.pid] >= QUIET_MS
  }

  function Remember(last: map<nat, nat>, item: Item): map<nat, nat> {
    if item.Some? && IsSent(last, item.value) then last[item.value.pid := item.value.insertedAt] else last
  }

  function Sent(last: map<nat, nat>, item: Item): seq<Report> {
    if item.Some? && IsSent(last, item.value) then [item.value] else []
  }

  /** The events the reference sends on. */
  function Sends(last: map<nat, nat>, items: seq<Item>): seq<Report>
    decreases |items|
  {
    if items == [] then []
    else Sent(last, items[0]) + Sends(Remember(last, items[0]), items[1..])
  }

  function RememberAll(last: map<nat, nat>, items: seq<Item>): map<nat, nat>
    decreases |items|
  {
    if items == [] then last else RememberAll(Remember(last, items[0]), items[1..])
  }

  /** The reference treats two batches as one. */
  lemma {:induction false} SendsSplit(last: map<nat, nat>, items: seq<Item>, rest: seq<Item>)
    ensures Sends(last, items + rest) == Sends(last, items) + Sends(RememberAll(last, items), rest)
    ensures RememberAll(last, items + rest) == RememberAll(RememberAll(last, items), rest)
    decreases |items|
  {
    hide Remember, Sent;
    if items == [] {
      assert items + rest == rest;
    } else {
      var next := Remember(last, items[0]);
      assert (items + rest)[0] == items[0] && (items + rest)[1..] == items[1..] + rest;
      SendsSplit(next, items[1..], rest);
      assert Sends(last, items + rest) == Sent(last, items[0]) + Sends(next, items[1..] + rest);
    }
  }

  /** All items of several wake-ups, in order. */
  function Flatten(batches: seq<seq<Item>>): seq<Item> {
    if batches == [] then [] else Flatten(batches[..|batches| - 1]) + batches[|batches| - 1]
  }

  /** The pruned map agrees with the full one, except for sends at least KEEP_MS ago. */
  ghost predicate Agrees(recent: map<nat, nat>, last: map<nat, nat>, now: nat) {
    && (forall pid | pid in recent :: pid in last && recent[pid] == last[pid])
    && (forall pid | pid in last && pid !in recent :: last[pid] + KEEP_MS <= now)
  }

  class Drain {
    /** When each recently reported pid was last sent. */
    var recent: map<nat, nat>

    constructor ()
      ensures recent == map[]
    {
      recent := map[];
    }

    /** Handles one event: sent on unless its pid was sent recently; old sends are pruned now and then. */
    method Handle(e: Report, ghost last: map<nat, nat>, ghost now: nat) returns (isSent: bool)
      requires Agrees(recent, last, now) && now <= e.checkedAt <= e.insertedAt <= e.prunedAt
      modifies this
      ensures isSent == IsSent(last, e)
      ensures Agrees(recent, Remember(last, Some(e)), e.prunedAt)
    {
      if e.pid in recent && e.checkedAt - recent[e.pid] < QUIET_MS {
        return false;
      }
      recent := recent[e.pid := e.insertedAt];
      if |recent| > RECENT_MAX {
        recent := Pruned(recent, e.prunedAt);
      }
      return true;
    }

    /** Handles one batch. Whatever was pruned, exactly the events of the never-pruned reference are
        sent, and the map stays a pruning of the reference's. */
    method Batch(items: seq<Item>, ghost last: map<nat, nat>, ghost now: nat) returns (sent: seq<Report>)
      requires Agrees(recent, last, now) && Monotone(items, now)
      modifies this
      ensures sent == Sends(last, items)
      ensures Agrees(recent, RememberAll(last, items), LastReading(items, now))
    {
      hide Agrees, IsSent, Monotone, Sends, RememberAll, LastReading;
      sent := [];
      ghost var full, at := last, now;
      assert items[0..] == items;
      for n := 0 to |items|
        invariant Monotone(items[n..], at) && Agrees(recent, full, at)
        invariant Sends(last, items) == sent + Sends(full, items[n..])
        invariant RememberAll(last, items) == RememberAll(full, items[n..])
        invariant LastReading(items, now) == LastReading(items[n..], at)
      {
        NextItem(full, items, n, at);
        if items[n].Some? {
          var isSent := Handle(items[n].value, full, at);
          if isSent {
            sent := sent + [items[n].value];
          }
          at := items[n].value.prunedAt;
        }
        full := Remember(full, items[n]);
      }
      NoMoreItems(full, items, at);
    }

    /** The drain loop from start to shutdown, one batch per wake-up: over all of them together the
        events sent are those of the reference. */
    method Run(batches: seq<seq<Item>>, ghost now: nat) returns (sent: seq<Report>)
      requires recent == map[] && Monotone(Flatten(batches), now)
      modifies this
      ensures sent == Sends(map[], Flatten(batches))
    {
      hide Monotone, Sends, RememberAll, LastReading;
      sent := [];
      NothingSent(now);
      for n := 0 to |batches|
        invariant Monotone(Flatten(batches[..n]), now) && sent == Sends(map[], Flatten(batches[..n]))
        invariant Agrees(recent, RememberAll(map[], Flatten(batches[..n])), LastReading(Flatten(batches[..n]), now))
      {
        var all, before := batches[..n + 1], Flatten(batches[..n]);
        assert all[..n] == batches[..n];
        FlattenPrefix(batches, n + 1, now);
        MonotoneSplit(before, batches[n], now);
        LastSplit(before, batches[n], now);
        SendsSplit(map[], before, batches[n]);
        var more := Batch(batches[n], RememberAll(map[], before), LastReading(before, now));
        sent := sent + more;
      }
      assert batches[..|batches|] == batches;
    }
  }

  lemma NextItem(full: map<nat, nat>, items: seq<Item>, n: nat, at: nat)
    requires n < |items| && Monotone(items[n..], at)
    ensures var next := if items[n].Some? then items[n].value.prunedAt else at;
      && (items[n].Some? ==>
            var e := items[n].value; at <= e.checkedAt <= e.insertedAt <= e.prunedAt)
      && Monotone(items[n + 1..], next)
      && Sends(full, items[n..]) == Sent(full, items[n]) + Sends(Remember(full, items[n]), items[n + 1..])
      && RememberAll(full, items[n..]) == RememberAll(Remember(full, items[n]), items[n + 1..])
      && LastReading(items[n..], at) == LastReading(items[n + 1..], next)
  {
    hide Sent, Remember;
    assert items[n..][0] == items[n] && items[n..][1..] == items[n + 1..];
  }

  lemma NoMoreItems(full: map<nat, nat>, items: seq<Item>, at: nat)
    ensures Sends(full, items[|items|..]) == [] && RememberAll(full, items[|items|..]) == full
    ensures LastReading(items[|items|..], at) == at
  {}

  lemma NothingSent(now: nat)
    ensures Flatten([]) == [] && Monotone([], now) && Sends(map[], []) == [] && RememberAll(map[], []) == map[]
  {}

  lemma {:induction false} LastSplit(items: seq<Item>, rest: seq<Item>, now: nat)
    ensures LastReading(items + rest, now) == LastReading(rest, LastReading(items, now))
    decreases |items|
  {
    if items == [] {
      assert items + rest == rest;
    } else {
      assert (items + rest)[1..] == items[1..] + rest;
      LastSplit(items[1..], rest, if items[0].Some? then items[0].value.prunedAt else now);
    }
  }

  /** A clock that is monotone over all batches is monotone over the first few. */
  lemma {:induction false} FlattenPrefix(batches: seq<seq<Item>>, n: nat, now: nat)
    requires n <= |batches| && Monotone(Flatten(batches), now)
    ensures Monotone(Flatten(batches[..n]), now)
    decreases |batches|
  {
    hide Monotone;
    if n == |batches| {
      assert batches[..n] == batches;
    } else {
      var m := |batches| - 1;
      MonotoneSplit(Flatten(batches[..m]), batches[m], now);
      FlattenPrefix(batches[..m], n, now);
      assert batches[..m][..n] == batches[..n];
    }
  }

  /** Drops every send that is no longer recent. */
  function Pruned(recent: map<nat, nat>, now: nat): map<nat, nat> {
    map pid | pid in recent && now - recent[pid] < KEEP_MS :: recent[pid]
  }

  lemma {:induction false} SendsAreLater(last: map<nat, nat>, items: seq<Item>, now: nat, pid: nat, t: nat)
    requires Monotone(items, now) && pid in last && last[pid] >= t
    ensures forall e | e in Sends(last, items) && e.pid == pid :: e.checkedAt - t >= QUIET_MS
    decreases |items|
  {
    if items == [] {
    } else {
      var after := if items[0].Some? then items[0].value.prunedAt else now;
      SendsAreLater(Remember(last, items[0]), items[1..], after, pid, t);
    }
  }

  /** Two sends of the same pid are at least five seconds apart. */
  lemma {:induction false} SendsAreSpaced(last: map<nat, nat>, items: seq<Item>, now: nat, i: nat, j: nat)
    requires Monotone(items, now)
    requires i < j < |Sends(last, items)| && Sends(last, items)[i].pid == Sends(last, items)[j].pid
    ensures Sends(last, items)[j].checkedAt - Sends(last, items)[i].insertedAt >= QUIET_MS
    decreases |items|
  {
    var next, rest := Remember(last, items[0]), Sends(Remember(last, items[0]), items[1..]);
    var after := if items[0].Some? then items[0].value.prunedAt else now;
    if items[0].None? || !IsSent(last, items[0].value) {
      SendsAreSpaced(next, items[1..], after, i, j);
    } else if i > 0 {
      SendsAreSpaced(next, items[1..], after, i - 1, j - 1);
    } else {
      var e := items[0].value;
      SendsAreLater(next, items[1..], after, e.pid, e.insertedAt);
      assert rest[j - 1] in rest;
    }
  }

  /** Of the events handled so far, the last one sent for a pid is the one remembered. */
  ghost predicate Remembers(sent: seq<Report>, last: map<nat, nat>, now: nat) {
    && (forall e | e in sent :: e.insertedAt <= now && e.pid in last && e.insertedAt <= last[e.pid])
    && (forall pid | pid in last :: exists e | e in sent :: e.pid == pid && e.insertedAt == last[pid])
  }

  lemma RemembersNext(sent: seq<Report>, last: map<nat, nat>, now: nat, item: Item)
    requires Remembers(sent, last, now)
    requires item.Some? ==> now <= item.value.checkedAt <= item.value.insertedAt <= item.value.prunedAt
    ensures Remembers(sent + Sent(last, item), Remember(last, item), if item.Some? then item.value.prunedAt else now)
  {
    var after := sent + Sent(last, item);
    forall pid | pid in Remember(last, item)
      ensures exists e | e in after :: e.pid == pid && e.insertedAt == Remember(last, item)[pid]
    {
      if item.Some? && IsSent(last, item.value) && item.value.pid == pid {
        assert after[|sent|] == item.value;
      } else {
        var e :| e in sent && e.pid == pid && e.insertedAt == last[pid];
        assert e in after;
      }
    }
  }

  lemma {:induction false} RemembersAll(items: seq<Item>, now: nat)
    requires Monotone(items, now)
    ensures Remembers(Sends(map[], items), RememberAll(map[], items), LastReading(items, now))
    decreases |items|
  {
    hide Remembers, Sent, Remember;
    if items == [] {
      assert Remembers([], map[], now) by { NothingRemembered(now); }
    } else {
      var n := |items| - 1;
      assert items == items[..n] + [items[n]];
      MonotoneSplit(items[..n], [items[n]], now);
      RemembersAll(items[..n], now);
      SendsSplit(map[], items[..n], [items[n]]);
      LastSplit(items[..n], [items[n]], now);
      OneItem(RememberAll(map[], items[..n]), items[n], LastReading(items[..n], now));
      RemembersNext(Sends(map[], items[..n]), RememberAll(map[], items[..n]), LastReading(items[..n], now), items[n]);
    }
  }

  lemma NothingRemembered(now: nat)
    ensures Remembers([], map[], now)
  {}

  lemma OneItem(last: map<nat, nat>, item: Item, now: nat)
    requires Monotone([item], now)
    ensures Sends(last, [item]) == Sent(last, item) && RememberAll(last, [item]) == Remember(last, item)
    ensures LastReading([item], now) == if item.Some? then item.value.prunedAt else now
    ensures item.Some? ==> now <= item.value.checkedAt <= item.value.insertedAt <= item.value.prunedAt
  {
    hide Sent, Remember;
    assert [item][1..] == [];
    assert Sends(Remember(last, item), [item][1..]) == [];
    assert RememberAll(Remember(last, item), [item][1..]) == Remember(last, item);
  }

  /** Exactly which events are sent: one more item is sent on if and only if it is an event and no event of
      its pid was sent within the last five seconds. */
  lemma SentIff(items: seq<Item>, item: Item, now: nat)
    requires Monotone(items + [item], now)
    ensures Sends(map[], []) == []
    ensures var sent := Sends(map[], items);
      Sends(map[], items + [item]) ==
        if item.Some? && forall e | e in sent && e.pid == item.value.pid :: item.value.checkedAt - e.insertedAt >= 5000
        then sent + [item.value] else sent
  {
    hide Remembers, Monotone, Sends, RememberAll, LastReading;
    MonotoneSplit(items, [item], now);
    RemembersAll(items, now);
    SendsSplit(map[], items, [item]);
    OneItem(RememberAll(map[], items), item, LastReading(items, now));
    if item.Some? {
      QuietIs(Sends(map[], items), RememberAll(map[], items), LastReading(items, now), item.value);
    }
    NothingSent(now);
  }

  lemma QuietIs(sent: seq<Report>, last: map<nat, nat>, now: nat, e: Report)
    requires Remembers(sent, last, now)
    ensures IsSent(last, e) <==> forall f | f in sent && f.pid == e.pid :: e.checkedAt - f.insertedAt >= 5000
  {}

  // ---------- the killer's pass ----------

  /** What the killer sees of one entry at its visit. */
  datatype Look = Look(exited: bool, oom: Option<int>, ageMs: nat, listed: bool, identified: bool)

  datatype Fate = Gone | Killed | NotListed | NotIdentified | Waiting

  /** The verdict on one entry. */
  function FateOf(l: Look): Fate {
    if l.exited || l.oom.None? then Gone
    else if l.oom.value != 0 && l.ageMs < TIMEOUT_MS then Waiting
    else if !l.listed then NotListed
    else if !l.identified then NotIdentified
    else Killed
  }

  datatype Tally = Tally(closed: seq<nat>, signalled: seq<Pending>, killSkipped: nat, identitySkipped: nat)

  /** What a visit adds: every entry that does not stay has its descriptor closed, exactly a kill is
      signalled, and each kind of skip is counted. */
  function TallyAfter(t: Tally, e: Pending, fate: Fate): Tally {
    match fate
    case Waiting => t
    case Gone => t.(closed := t.closed + [e.fd])
    case Killed => t.(closed := t.closed + [e.fd], signalled := t.signalled + [e])
    case NotListed => t.(closed := t.closed + [e.fd], killSkipped := t.killSkipped + 1)
    case NotIdentified => t.(closed := t.closed + [e.fd], identitySkipped := t.identitySkipped + 1)
  }

  class KillerThread {
    var pending: seq<Pending>
    /** Descriptors closed, entries signalled, and the two skip counters. */
    var closed: seq<nat>
    var signalled: seq<Pending>
    var killSkipped: nat
    var identitySkipped: nat

    constructor ()
      ensures pending == [] && closed == [] && signalled == [] && killSkipped == 0 && identitySkipped == 0
    {
      pending, closed, signalled, killSkipped, identitySkipped := [], [], [], 0, 0;
    }

    /** Decides about a queued kill whose moment has come, and always closes the descriptor. */
    method KillIfBlocked(e: Pending, l: Look) returns (killed: bool)
      modifies this`closed, this`signalled, this`killSkipped, this`identitySkipped
      ensures killed == (l.listed && l.identified)
      ensures closed == old(closed) + [e.fd]
      ensures signalled == if killed then old(signalled) + [e] else old(signalled)
      ensures killSkipped == old(killSkipped) + (if !l.listed then 1 else 0)
      ensures identitySkipped == old(identitySkipped) + (if l.listed && !l.identified then 1 else 0)
    {
      if !l.listed {
        killSkipped := killSkipped + 1;
        closed := closed + [e.fd];
        return false;
      }
      if !l.identified {
        identitySkipped := identitySkipped + 1;
        closed := closed + [e.fd];
        return false;
      }
      signalled := signalled + [e];
      closed := closed + [e.fd];
      return true;
    }

    /** One pass with removal by swapping: every entry is visited exactly once, exactly the entries
        still waiting stay, every other one has its descriptor closed once, and exactly the entries
        whose verdict is a kill are signalled. */
    method Pass(look: Pending -> Look) returns (ghost visited: seq<Pending>)
      modifies this
      ensures multiset(visited) == multiset(old(pending))
      ensures multiset(pending) == multiset(WithFate(visited, look, Waiting))
      ensures forall e | e in pending ::
        !look(e).exited && look(e).oom.Some? && look(e).oom.value != 0 && look(e).ageMs < TIMEOUT_MS
      ensures closed == old(closed) + FdsClosed(visited, look)
      ensures signalled == old(signalled) + WithFate(visited, look, Killed)
      ensures killSkipped == old(killSkipped) + |WithFate(visited, look, NotListed)|
      ensures identitySkipped == old(identitySkipped) + |WithFate(visited, look, NotIdentified)|
    {
      hide FateOf, SwapRemove, WithFate, FdsClosed, Progress, TallyAfter, TallyOf;
      visited := [];
      var i := 0;
      PassStarts(pending, look);
      NothingTallied(Tallies(), look);
      while i < |pending|
        invariant i <= |pending| && Progress(old(pending), pending, i, visited, look)
        invariant Tallies() == TallyOf(old(Tallies()), visited, look)
        decreases |pending| - i
      {
        var e := pending[i];
        TallyOneMore(old(Tallies()), visited, e, look);
        var stays := Visit(e, look(e));
        if stays {
          EntryStays(old(pending), pending, i, visited, look);
          i := i + 1;
        } else {
          EntryGoes(old(pending), pending, i, visited, look);
          pending := SwapRemove(pending, i);
        }
        visited := visited + [e];
      }
      TallyParts(old(Tallies()), visited, look);
      PassEnds(old(pending), pending, visited, look);
    }

    /** What the killer has closed, signalled and skipped so far. */
    function Tallies(): Tally
      reads this`closed, this`signalled, this`killSkipped, this`identitySkipped
    {
      Tally(closed, signalled, killSkipped, identitySkipped)
    }

    /** The branches of one visit; the entry stays when neither an exit, a trigger nor the timeout
        was seen. */
    method Visit(e: Pending, l: Look) returns (stays: bool)
      modifies this`closed, this`signalled, this`killSkipped, this`identitySkipped
      ensures stays == (FateOf(l) == Waiting)
      ensures Tallies() == TallyAfter(old(Tallies()), e, FateOf(l))
    {
      if l.exited {
        closed := closed + [e.fd];
        return false;
      }
      match l.oom {
        case None =>
          closed := closed + [e.fd];
          return false;
        case Some(score) =>
          if score == 0 {
            var _ := KillIfBlocked(e, l);
            return false;
          } else if l.ageMs >= TIMEOUT_MS {
            var _ := KillIfBlocked(e, l);
            return false;
          } else {
            return true;
          }
      }
    }

    /** The sender is gone: signal and close whatever is pending, then stop. */
    method Disconnect()
      modifies this
      ensures pending == []
      ensures signalled == old(signalled) + old(pending)
      ensures closed == old(closed) + FdsInOrder(old(pending))
      ensures killSkipped == old(killSkipped) && identitySkipped == old(identitySkipped)
    {
      var n := 0;
      while n < |pending|
        invariant 0 <= n <= |pending| && pending == old(pending)
        invariant signalled == old(signalled) + pending[..n]
        invariant closed == old(closed) + FdsInOrder(pending[..n])
        invariant killSkipped == old(killSkipped) && identitySkipped == old(identitySkipped)
      {
        assert pending[..n + 1][..n] == pending[..n];
        signalled := signalled + [pending[n]];
        closed := closed + [pending[n].fd];
        n := n + 1;
      }
      assert pending[..n] == pending;
      pending := [];
    }
  }

  function FdsInOrder(es: seq<Pending>): seq<nat> {
    if es == [] then [] else FdsInOrder(es[..|es| - 1]) + [es[|es| - 1].fd]
  }

  lemma {:induction false} WaitingHasFate(es: seq<Pending>, look: Pending -> Look, e: Pending)
    requires e in multiset(WithFate(es, look, Waiting))
    ensures FateOf(look(e)) == Waiting
  {
    if es != [] && e in WithFate(es[..|es| - 1], look, Waiting) {
      WaitingHasFate(es[..|es| - 1], look, e);
    }
  }

  function WithFate(es: seq<Pending>, look: Pending -> Look, fate: Fate): seq<Pending> {
    if es == [] then []
    else
      var e := es[|es| - 1];
      WithFate(es[..|es| - 1], look, fate) + (if FateOf(look(e)) == fate then [e] else [])
  }

  /** The descriptors of all entries that do not stay. */
  function FdsClosed(es: seq<Pending>, look: Pending -> Look): seq<nat> {
    if es == [] then []
    else
      var e := es[|es| - 1];
      FdsClosed(es[..|es| - 1], look) + (if FateOf(look(e)) != Waiting then [e.fd] else [])
  }

  /** The loop's state: the first i entries are those visited that wait, the others are unvisited. */
  ghost predicate Progress(all: seq<Pending>, pending: seq<Pending>, i: nat, visited: seq<Pending>,
                           look: Pending -> Look)
    requires i <= |pending|
  {
    && multiset(visited) + multiset(pending[i..]) == multiset(all)
    && multiset(pending[..i]) == multiset(WithFate(visited, look, Waiting))
  }

  function TallyOf(t: Tally, visited: seq<Pending>, look: Pending -> Look): Tally {
    Tally(t.closed + FdsClosed(visited, look),
          t.signalled + WithFate(visited, look, Killed),
          t.killSkipped + |WithFate(visited, look, NotListed)|,
          t.identitySkipped + |WithFate(visited, look, NotIdentified)|)
  }

  lemma NothingTallied(t: Tally, look: Pending -> Look)
    ensures TallyOf(t, [], look) == t
  {}

  lemma TallyOneMore(t: Tally, visited: seq<Pending>, e: Pending, look: Pending -> Look)
    ensures TallyOf(t, visited + [e], look) == TallyAfter(TallyOf(t, visited, look), e, FateOf(look(e)))
  {
    hide FateOf, WithFate, FdsClosed;
    VisitOne(visited, e, look);
  }

  lemma TallyParts(t: Tally, visited: seq<Pending>, look: Pending -> Look)
    ensures TallyOf(t, visited, look).closed == t.closed + FdsClosed(visited, look)
    ensures TallyOf(t, visited, look).signalled == t.signalled + WithFate(visited, look, Killed)
    ensures TallyOf(t, visited, look).killSkipped == t.killSkipped + |WithFate(visited, look, NotListed)|
    ensures TallyOf(t, visited, look).identitySkipped == t.identitySkipped + |WithFate(visited, look, NotIdentified)|
  {}

  lemma PassStarts(all: seq<Pending>, look: Pending -> Look)
    ensures Progress(all, all, 0, [], look)
    ensures FdsClosed([], look) == [] && forall fate :: WithFate([], look, fate) == []
  {
    assert all[0..] == all;
  }

  lemma EntryStays(all: seq<Pending>, pending: seq<Pending>, i: nat, visited: seq<Pending>, look: Pending -> Look)
    requires i < |pending| && Progress(all, pending, i, visited, look)
    requires FateOf(look(pending[i])) == Waiting
    ensures Progress(all, pending, i + 1, visited + [pending[i]], look)
  {
    hide FateOf, WithFate, SwapRemove, FdsClosed;
    VisitOne(visited, pending[i], look);
    SwapRemoveFrom(pending, i);
  }

  lemma EntryGoes(all: seq<Pending>, pending: seq<Pending>, i: nat, visited: seq<Pending>, look: Pending -> Look)
    requires i < |pending| && Progress(all, pending, i, visited, look)
    requires FateOf(look(pending[i])) != Waiting
    ensures i <= |SwapRemove(pending, i)| < |pending|
    ensures Progress(all, SwapRemove(pending, i), i, visited + [pending[i]], look)
  {
    hide FateOf, WithFate, FdsClosed;
    VisitOne(visited, pending[i], look);
    SwapRemoveFrom(pending, i);
  }

  lemma PassEnds(all: seq<Pending>, pending: seq<Pending>, visited: seq<Pending>, look: Pending -> Look)
    requires Progress(all, pending, |pending|, visited, look)
    ensures multiset(visited) == multiset(all)
    ensures multiset(pending) == multiset(WithFate(visited, look, Waiting))
    ensures forall e | e in pending ::
      !look(e).exited && look(e).oom.Some? && look(e).oom.value != 0 && look(e).ageMs < TIMEOUT_MS
  {
    hide WithFate;
    assert pending[..|pending|] == pending && pending[|pending|..] == [];
    forall e | e in pending ensures FateOf(look(e)) == Waiting {
      assert e in multiset(pending);
      WaitingHasFate(visited, look, e);
    }
  }

  lemma VisitOne(es: seq<Pending>, e: Pending, look: Pending -> Look)
    ensures forall fate ::
      (WithFate(es + [e], look, fate) == WithFate(es, look, fate) + (if FateOf(look(e)) == fate then [e] else []))
    ensures FdsClosed(es + [e], look) == FdsClosed(es, look) + (if FateOf(look(e)) != Waiting then [e.fd] else [])
  {
    assert (es + [e])[..|es|] == es;
  }

  /** Removal by swapping keeps what was visited and drops one entry from what was not. */
  lemma SwapRemoveFrom(s: seq<Pending>, i: nat)
    requires i < |s|
    ensures i <= |SwapRemove(s, i)| == |s| - 1
    ensures SwapRemove(s, i)[..i] == s[..i]
    ensures multiset(SwapRemove(s, i)[i..]) + multiset{s[i]} == multiset(s[i..])
    ensures multiset(s[i + 1..]) + multiset{s[i]} == multiset(s[i..])
    ensures multiset(s[..i + 1]) == multiset(s[..i]) + multiset{s[i]}
  {
    var n, r := |s| - 1, SwapRemove(s, i);
    assert s[i..] == [s[i]] + s[i + 1..];
    assert s[..i + 1] == s[..i] + [s[i]];
    if i < n {
      assert r[i..] == [s[n]] + s[i + 1..n];
      assert s[i + 1..] == s[i + 1..n] + [s[n]];
    }
  }
}
