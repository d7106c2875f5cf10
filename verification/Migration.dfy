/** Packages whose uid changed: which per-uid state follows them, and what stays behind. */
module Migration {
  import opened Rules
  import opened EngineState
  import Restart

  predicate Moves(before: map<string, Uid>, uids: map<string, Uid>, key: string) {
    key in before && key in uids && before[key] != uids[key]
  }

  ghost predicate NoMoves(before: map<string, Uid>, uids: map<string, Uid>) {
    forall key :: !Moves(before, uids, key)
  }

  function Moved(m: map<Uid, nat>, from: Uid, to: Uid): map<Uid, nat> {
    if from in m then (m - {from})[to := m[from]] else m
  }

  /** One key after the other takes its entry along. */
  function MoveAll(before: map<string, Uid>, uids: map<string, Uid>, order: seq<string>,
                   m: map<Uid, nat>): map<Uid, nat>
  {
    if order == [] then m
    else
      var rest, key := MoveAll(before, uids, order[..|order| - 1], m), order[|order| - 1];
      if Moves(before, uids, key) then Moved(rest, before[key], uids[key]) else rest
  }

  /** The keys of a hash map in the order of its iteration. */
  ghost predicate Listing(order: seq<string>, keys: set<string>) {
    && (forall key :: key in keys <==> key in order)
    && forall i, j | 0 <= i < j < |order| :: order[i] != order[j]
  }

  lemma NothingListed(before: map<string, Uid>, uids: map<string, Uid>, m: map<Uid, nat>)
    ensures Listing([], {}) && MoveAll(before, uids, [], m) == m
  {}

  lemma OneMoreListed(order: seq<string>, keys: set<string>, key: string)
    requires Listing(order, keys) && key !in keys
    ensures Listing(order + [key], keys + {key})
  {}

  lemma OneMoreMoved(before: map<string, Uid>, uids: map<string, Uid>, order: seq<string>, key: string,
                     m: map<Uid, nat>)
    ensures var r := MoveAll(before, uids, order, m);
      MoveAll(before, uids, order + [key], m) ==
        if Moves(before, uids, key) then Moved(r, before[key], uids[key]) else r
  {
    hide Moved;
    assert (order + [key])[..|order|] == order;
  }

  /** The state after a changed package list: usage and extensions move with their keys, then what
      belongs to no installed uid is dropped. */
  function Synced(c: Core, uids: map<string, Uid>, order: seq<string>): Core {
    var before := c.cfg.uidOf;
    Restart.KeepInstalled(c.(
      cfg := c.cfg.(uidOf := uids),
      meters := c.meters.(usageAny := MoveAll(before, uids, order, c.meters.usageAny),
                          usageFg := MoveAll(before, uids, order, c.meters.usageFg)),
      budget := c.budget.(extUntil := MoveAll(before, uids, order, c.budget.extUntil))))
  }

  lemma {:induction false} NothingMoves(before: map<string, Uid>, uids: map<string, Uid>, order: seq<string>,
                                        m: map<Uid, nat>)
    requires NoMoves(before, uids)
    ensures MoveAll(before, uids, order, m) == m
  {
    if order == [] {
    } else {
      NothingMoves(before, uids, order[..|order| - 1], m);
    }
  }

  /** When no key changed its uid, only uninstalled uids are forgotten. */
  lemma SyncWithoutMoves(c: Core, uids: map<string, Uid>, order: seq<string>)
    requires NoMoves(c.cfg.uidOf, uids)
    ensures Synced(c, uids, order) == Restart.KeepInstalled(c.(cfg := c.cfg.(uidOf := uids)))
  {
    hide Restart.KeepInstalled, NoMoves;
    NothingMoves(c.cfg.uidOf, uids, order, c.meters.usageAny);
    NothingMoves(c.cfg.uidOf, uids, order, c.meters.usageFg);
    NothingMoves(c.cfg.uidOf, uids, order, c.budget.extUntil);
  }

  /** After a sync a uid that no installed package has keeps nothing: no usage, extension, budget or
      cooldown that another package with a recycled uid could inherit. Group state is untouched. */
  lemma UninstalledIsForgotten(c: Core, uids: map<string, Uid>, order: seq<string>, u: Uid)
    requires forall key | key in uids :: uids[key] != u
    ensures var e := Synced(c, uids, order);
      && u !in e.meters.usageAny && u !in e.meters.usageFg && u !in e.meters.cooldownUntil
      && u !in e.budget.extUntil && u !in e.budget.extGranted
      && e.meters.groupCooldownUntil == c.meters.groupCooldownUntil
      && e.budget.groupExtUntil == c.budget.groupExtUntil && e.budget.groupExtGranted == c.budget.groupExtGranted
      && e.cfg == c.cfg.(uidOf := uids) && e.lastTick == c.lastTick && e.lastDay == c.lastDay
  {
    hide MoveAll;
    assert u !in uids.Values;
  }

  // ---------- what follows, in whatever order ----------

  /** Two keys that move from one uid to one other uid, as packages that share a uid do. */
  predicate SameMove(before: map<string, Uid>, uids: map<string, Uid>, k: string, key: string) {
    && Moves(before, uids, k) && Moves(before, uids, key)
    && before[k] == before[key] && uids[k] == uids[key]
  }

  /** Two moving keys with no uid in common. */
  predicate Apart(before: map<string, Uid>, uids: map<string, Uid>, k: string, key: string)
    requires Moves(before, uids, k) && Moves(before, uids, key)
  {
    before[k] !in {before[key], uids[key]} && uids[k] !in {before[key], uids[key]}
  }

  /** Every other moving key moves along with this one or has no uid in common with it. */
  ghost predicate MovesClear(before: map<string, Uid>, uids: map<string, Uid>, key: string) {
    && Moves(before, uids, key)
    && forall k | Moves(before, uids, k) :: SameMove(before, uids, k, key) || Apart(before, uids, k, key)
  }

  /** No key moved away from this uid or to it. */
  ghost predicate Untouched(before: map<string, Uid>, uids: map<string, Uid>, u: Uid) {
    forall key | Moves(before, uids, key) :: u != before[key] && u != uids[key]
  }

  function Entry(m: map<Uid, nat>, u: Uid): Option<nat> {
    if u in m then Some(m[u]) else None
  }

  /** What a key brings to its new uid: the entry of its old uid if it has one. */
  function Brought(m: map<Uid, nat>, from: Uid, to: Uid): Option<nat> {
    Entry(m, if from in m then from else to)
  }

  /** Whatever the entries and the order, the key's entry is at its new uid in the end. */
  ghost predicate AlwaysFollows(before: map<string, Uid>, uids: map<string, Uid>, key: string)
    requires Moves(before, uids, key)
  {
    forall order, m | Listing(order, uids.Keys) ::
      Entry(MoveAll(before, uids, order, m), uids[key]) == Brought(m, before[key], uids[key])
  }

  /** The entry stays at the old uid until the first key of this move comes, and is at the new uid then. */
  lemma {:induction false} ClearMove(before: map<string, Uid>, uids: map<string, Uid>, order: seq<string>,
                                     key: string, m: map<Uid, nat>)
    requires MovesClear(before, uids, key)
    ensures var r, from, to := MoveAll(before, uids, order, m), before[key], uids[key];
      if exists k | k in order :: SameMove(before, uids, k, key)
      then from !in r && Entry(r, to) == Brought(m, from, to)
      else Entry(r, from) == Entry(m, from) && Entry(r, to) == Entry(m, to)
  {
    if order == [] {
    } else {
      var rest, k := order[..|order| - 1], order[|order| - 1];
      ClearMove(before, uids, rest, key, m);
      assert forall x :: x in order <==> x in rest || x == k;
    }
  }

  lemma {:induction false} UntouchedStays(before: map<string, Uid>, uids: map<string, Uid>, order: seq<string>,
                                          u: Uid, m: map<Uid, nat>)
    requires Untouched(before, uids, u)
    ensures Entry(MoveAll(before, uids, order, m), u) == Entry(m, u)
  {
    if order == [] {
    } else {
      UntouchedStays(before, uids, order[..|order| - 1], u, m);
    }
  }

  /** A key's entry follows it for all entries and all orders exactly when it moves clear of all others. */
  lemma FollowsIff(before: map<string, Uid>, uids: map<string, Uid>, key: string)
    requires Moves(before, uids, key)
    ensures AlwaysFollows(before, uids, key) <==> MovesClear(before, uids, key)
  {
    hide MoveAll, Brought;
    if MovesClear(before, uids, key) {
      forall order, m | Listing(order, uids.Keys)
        ensures Entry(MoveAll(before, uids, order, m), uids[key]) == Brought(m, before[key], uids[key])
      {
        assert key in order && SameMove(before, uids, key, key);
        ClearMove(before, uids, order, key, m);
      }
    } else {
      var k :| Moves(before, uids, k) && !SameMove(before, uids, k, key) && !Apart(before, uids, k, key);
      var order, m := Collision(before, uids, key, k);
    }
  }

  // ---------- a collision loses an entry in some order ----------

  lemma {:induction false} MoveAllSplit(before: map<string, Uid>, uids: map<string, Uid>,
                                        a: seq<string>, b: seq<string>, m: map<Uid, nat>)
    ensures MoveAll(before, uids, a + b, m) == MoveAll(before, uids, b, MoveAll(before, uids, a, m))
  {
    if b == [] {
      assert a + b == a;
    } else {
      var n := |b| - 1;
      assert (a + b)[..|a| + n] == a + b[..n];
      MoveAllSplit(before, uids, a, b[..n], m);
    }
  }

  /** The key has no entry to move. */
  predicate Idle(before: map<string, Uid>, uids: map<string, Uid>, k: string, m: map<Uid, nat>) {
    Moves(before, uids, k) ==> before[k] !in m
  }

  lemma {:induction false} IdleKeys(before: map<string, Uid>, uids: map<string, Uid>, order: seq<string>,
                                    m: map<Uid, nat>)
    requires forall k | k in order :: Idle(before, uids, k, m)
    ensures MoveAll(before, uids, order, m) == m
  {
    if order == [] {
    } else {
      assert order[|order| - 1] in order && forall k | k in order[..|order| - 1] :: k in order;
      IdleKeys(before, uids, order[..|order| - 1], m);
    }
  }

  lemma {:induction false} ListingOf(keys: set<string>) returns (order: seq<string>)
    ensures Listing(order, keys)
  {
    if keys == {} {
      order := [];
    } else {
      var key :| key in keys;
      var rest := ListingOf(keys - {key});
      order := rest + [key];
    }
  }

  lemma JoinListings(a: seq<string>, aKeys: set<string>, b: seq<string>, bKeys: set<string>)
    requires Listing(a, aKeys) && Listing(b, bKeys) && aKeys !! bKeys
    ensures Listing(a + b, aKeys + bKeys)
  {
    forall i, j | 0 <= i < |a| && 0 <= j < |b| ensures a[i] != b[j] {
      assert a[i] in a && b[j] in b;
    }
  }

  /** An order that begins with keys that have nothing to move, goes on with the given ones, and ends with
      keys that have nothing to move any more. */
  lemma Arrange(before: map<string, Uid>, uids: map<string, Uid>, keys: set<string>, mid: seq<string>,
                mids: set<string>, m: map<Uid, nat>)
    returns (order: seq<string>)
    requires Listing(mid, mids) && mids <= keys
    requires forall k | k in keys - mids ::
      Idle(before, uids, k, m) || Idle(before, uids, k, MoveAll(before, uids, mid, m))
    ensures Listing(order, keys)
    ensures MoveAll(before, uids, order, m) == MoveAll(before, uids, mid, m)
  {
    hide MoveAll, Idle;
    var first := set k | k in keys - mids && Idle(before, uids, k, m);
    var last := keys - mids - first;
    var a := ListingOf(first);
    var b := ListingOf(last);
    JoinListings(a, first, mid, mids);
    JoinListings(a + mid, first + mids, b, last);
    order := a + mid + b;
    assert first + mids + last == keys;
    var r := MoveAll(before, uids, mid, m);
    IdleKeys(before, uids, a, m);
    MoveAllSplit(before, uids, a, mid, m);
    IdleKeys(before, uids, b, r);
    MoveAllSplit(before, uids, a + mid, b, m);
  }

  /** Entries and an order for which the key does not find its entry. */
  lemma Collision(before: map<string, Uid>, uids: map<string, Uid>, key: string, k: string)
    returns (order: seq<string>, m: map<Uid, nat>)
    requires Moves(before, uids, key) && Moves(before, uids, k)
    requires !SameMove(before, uids, k, key) && !Apart(before, uids, k, key)
    ensures Listing(order, uids.Keys)
    ensures Entry(MoveAll(before, uids, order, m), uids[key]) != Brought(m, before[key], uids[key])
  {
    hide MoveAll, Listing;
    var from, to := before[key], uids[key];
    m := if before[k] in {from, to} then map[from := 1] else map[from := 1, before[k] := 2];
    if before[k] == from {
      TwoMoves(before, uids, k, k, m);
      order := Arrange(before, uids, uids.Keys, [k], {k}, m);
    } else if before[k] == to {
      order := TakenAway(before, uids, key, k);
    } else if uids[k] == to {
      TwoMoves(before, uids, key, k, m);
      order := Arrange(before, uids, uids.Keys, [key, k], {key, k}, m);
    } else {
      TwoMoves(before, uids, k, key, m);
      order := Arrange(before, uids, uids.Keys, [k, key], {k, key}, m);
    }
  }

  lemma TwoMoves(before: map<string, Uid>, uids: map<string, Uid>, a: string, b: string, m: map<Uid, nat>)
    requires Moves(before, uids, a) && Moves(before, uids, b)
    ensures Listing([a], {a}) && (a != b ==> Listing([a, b], {a, b}))
    ensures MoveAll(before, uids, [a], m) == Moved(m, before[a], uids[a])
    ensures MoveAll(before, uids, [a, b], m) == Moved(Moved(m, before[a], uids[a]), before[b], uids[b])
  {
    assert [a][..0] == [] && [a, b][..1] == [a];
    assert MoveAll(before, uids, [], m) == m;
  }

  /** A key that moves away from the new uid takes the entry along when it comes last. */
  lemma TakenAway(before: map<string, Uid>, uids: map<string, Uid>, key: string, k: string) returns (order: seq<string>)
    requires Moves(before, uids, key) && Moves(before, uids, k) && before[k] == uids[key]
    ensures Listing(order, uids.Keys)
    ensures Entry(MoveAll(before, uids, order, map[before[key] := 1]), uids[key]) == None
  {
    hide MoveAll, Listing;
    var from, to, m := before[key], uids[key], map[before[key] := 1];
    var others := uids.Keys - {k};
    TwoMoves(before, uids, key, k, m);
    assert forall x | x in others && !Idle(before, uids, x, m) :: before[x] == from;
    var some := Arrange(before, uids, others, [key], {key}, m);
    TwoMoves(before, uids, k, k, map[to := 1]);
    JoinListings(some, others, [k], {k});
    assert others + {k} == uids.Keys;
    order := some + [k];
    MoveAllSplit(before, uids, some, [k], m);
  }

  /** A key that moves clear of others brings its usage and its running extension to its new uid, whatever
      the order; its budget and its cooldown stay behind, and the new uid keeps its own. */
  lemma MovedKeyBrings(c: Core, uids: map<string, Uid>, order: seq<string>, key: string)
    requires MovesClear(c.cfg.uidOf, uids, key) && Listing(order, uids.Keys)
    ensures var e, from, to := Synced(c, uids, order), c.cfg.uidOf[key], uids[key];
      && Entry(e.meters.usageAny, to) == Brought(c.meters.usageAny, from, to)
      && Entry(e.meters.usageFg, to) == Brought(c.meters.usageFg, from, to)
      && Entry(e.budget.extUntil, to) == Brought(c.budget.extUntil, from, to)
      && Entry(e.budget.extGranted, to) == Entry(c.budget.extGranted, to)
      && Entry(e.meters.cooldownUntil, to) == Entry(c.meters.cooldownUntil, to)
  {
    hide MoveAll, Brought;
    assert key in order && SameMove(c.cfg.uidOf, uids, key, key) && uids[key] in uids.Values;
    ClearMove(c.cfg.uidOf, uids, order, key, c.meters.usageAny);
    ClearMove(c.cfg.uidOf, uids, order, key, c.meters.usageFg);
    ClearMove(c.cfg.uidOf, uids, order, key, c.budget.extUntil);
    hide Listing, MovesClear;
  }

  /** An installed uid that no key moved from or to keeps everything. */
  lemma UntouchedKeeps(c: Core, uids: map<string, Uid>, order: seq<string>, u: Uid)
    requires u in uids.Values && Untouched(c.cfg.uidOf, uids, u)
    ensures var e := Synced(c, uids, order);
      && Entry(e.meters.usageAny, u) == Entry(c.meters.usageAny, u)
      && Entry(e.meters.usageFg, u) == Entry(c.meters.usageFg, u)
      && Entry(e.budget.extUntil, u) == Entry(c.budget.extUntil, u)
      && Entry(e.budget.extGranted, u) == Entry(c.budget.extGranted, u)
      && Entry(e.meters.cooldownUntil, u) == Entry(c.meters.cooldownUntil, u)
  {
    hide MoveAll, Untouched;
    UntouchedStays(c.cfg.uidOf, uids, order, u, c.meters.usageAny);
    UntouchedStays(c.cfg.uidOf, uids, order, u, c.meters.usageFg);
    UntouchedStays(c.cfg.uidOf, uids, order, u, c.budget.extUntil);
  }

  // ---------- what does not follow ----------

  /** The budget of a key follows it exactly when both uids had been granted the same, and its cooldown
      exactly when both had the same. */
  lemma BudgetFollowsIff(c: Core, uids: map<string, Uid>, order: seq<string>, key: string)
    requires key in c.cfg.uidOf && key in uids
    ensures var e, from, to := Synced(c, uids, order), c.cfg.uidOf[key], uids[key];
      && (Get(e.budget.extGranted, to) == Get(c.budget.extGranted, from)
          <==> Get(c.budget.extGranted, to) == Get(c.budget.extGranted, from))
      && (Entry(e.meters.cooldownUntil, to) == Entry(c.meters.cooldownUntil, from)
          <==> Entry(c.meters.cooldownUntil, to) == Entry(c.meters.cooldownUntil, from))
  {
    hide MoveAll;
    assert uids[key] in uids.Values;
  }

  /** The running extension moves and the cap starts again: a key whose minutes are used up gets another
      two hours on top of what is still running. */
  lemma CapRestartsAfterMove(c: Core, uids: map<string, Uid>, order: seq<string>, key: string, now: nat)
    requires MovesClear(c.cfg.uidOf, uids, key) && Listing(order, uids.Keys)
    requires SlotOf(c.cfg, key) == Some(UidSlot(c.cfg.uidOf[key]))
    requires Active(c.budget.extUntil, c.cfg.uidOf[key], now) && Get(c.budget.extGranted, uids[key]) == 0
    ensures var e := Synced(c, uids, order);
      var (r, grant) := AddExtension(e, key, EXTENSION_CAP, now);
      && grant == Granted(EXTENSION_CAP)
      && Get(r.budget.extUntil, uids[key]) == c.budget.extUntil[c.cfg.uidOf[key]] + 60 * EXTENSION_CAP
  {
    hide Listing, GroupOfMember, HasApp;
    MovedKeyBrings(c, uids, order, key);
    SyncedConfig(c, uids, order);
    SameSlot(c, uids, order, key);
    hide Synced;
  }

  lemma SyncedConfig(c: Core, uids: map<string, Uid>, order: seq<string>)
    ensures Synced(c, uids, order).cfg == c.cfg.(uidOf := uids)
  {
    hide MoveAll;
  }

  lemma SameSlot(c: Core, uids: map<string, Uid>, order: seq<string>, key: string)
    requires key in c.cfg.uidOf && key in uids && SlotOf(c.cfg, key) == Some(UidSlot(c.cfg.uidOf[key]))
    ensures SlotOf(Synced(c, uids, order).cfg, key) == Some(UidSlot(uids[key]))
  {
    hide GroupOfMember, HasApp, HasGroup;
    SyncedConfig(c, uids, order);
  }

  /** A fresh budget used up before a move and again after it. */
  lemma GrantedTwice(c: Core, uids: map<string, Uid>, order: seq<string>, key: string, now: nat)
    requires c.budget == EMPTY_BUDGET && MovesClear(c.cfg.uidOf, uids, key) && Listing(order, uids.Keys)
    requires SlotOf(c.cfg, key) == Some(UidSlot(c.cfg.uidOf[key]))
    ensures var start, from, to := AddExtension(c, key, EXTENSION_CAP, now).0, c.cfg.uidOf[key], uids[key];
      var e := Synced(start, uids, order);
      && Get(start.budget.extGranted, from) == EXTENSION_CAP && Get(e.budget.extGranted, to) == 0
      && Get(AddExtension(e, key, EXTENSION_CAP, now).0.budget.extUntil, to) == now + 2 * 60 * EXTENSION_CAP
  {
    hide Listing, SlotOf, Synced;
    var start := AddExtension(c, key, EXTENSION_CAP, now).0;
    assert start.cfg == c.cfg && start.budget.extGranted == map[c.cfg.uidOf[key] := EXTENSION_CAP];
    assert start.budget.extUntil == map[c.cfg.uidOf[key] := now + 60 * EXTENSION_CAP];
    MovedKeyBrings(start, uids, order, key);
    CapRestartsAfterMove(start, uids, order, key, now);
  }

  /** At one input: a package with a rule uses up its 120 minutes at uid 10001 and moves to 10002. It then
      has nothing granted there, and a second request keeps it exempt for four hours on end. */
  lemma FourHoursExempt(now: nat)
    ensures exists c: Core, uids: map<string, Uid> :: ExemptTwice(c, uids, "0:com.foo", now)
  {
    hide Listing, GroupOfMember, Synced, AddExtension, ExemptTwice;
    var key, d := "0:com.foo", DurationRule(0, 0, "foreground");
    var rules := DEFAULT_RULES.(apps := [AppRule(key, true, RuleSet(true, false, TimeWindows("allow", []), d))]);
    var uids := map[key := 10002];
    var c := Core(Config(rules, map[key := 10001], {}, None), EMPTY_BUDGET, EMPTY_METERS, None, None);
    assert HasApp(rules.apps, key) by { assert rules.apps[0].key == key; }
    OnlyKeyMovesClear(c.cfg.uidOf, uids, key);
    AlwaysTwice(c, uids, key, now);
  }

  lemma AlwaysTwice(c: Core, uids: map<string, Uid>, key: string, now: nat)
    requires c.budget == EMPTY_BUDGET && MovesClear(c.cfg.uidOf, uids, key)
    requires SlotOf(c.cfg, key) == Some(UidSlot(c.cfg.uidOf[key]))
    ensures ExemptTwice(c, uids, key, now)
  {
    hide Listing, Synced, AddExtension, SlotOf;
    forall order | Listing(order, uids.Keys)
      ensures Get(Synced(AddExtension(c, key, EXTENSION_CAP, now).0, uids, order).budget.extGranted, uids[key]) == 0
      ensures Get(AddExtension(Synced(AddExtension(c, key, EXTENSION_CAP, now).0, uids, order), key, EXTENSION_CAP, now)
        .0.budget.extUntil, uids[key]) == now + 14400
    {
      GrantedTwice(c, uids, order, key, now);
    }
  }

  /** From an empty budget, all minutes are granted before the move and all again after it. */
  ghost predicate ExemptTwice(c: Core, uids: map<string, Uid>, key: string, now: nat) {
    var start := AddExtension(c, key, EXTENSION_CAP, now).0;
    && c.budget == EMPTY_BUDGET && Moves(c.cfg.uidOf, uids, key)
    && forall order | Listing(order, uids.Keys) ::
         var e := Synced(start, uids, order);
         && Get(e.budget.extGranted, uids[key]) == 0
         && Get(AddExtension(e, key, EXTENSION_CAP, now).0.budget.extUntil, uids[key]) == now + 14400
  }

  lemma OnlyKeyMovesClear(before: map<string, Uid>, uids: map<string, Uid>, key: string)
    requires uids.Keys == {key} && key in before && before[key] != uids[key]
    ensures MovesClear(before, uids, key)
  {}

  /** Two keys that swap their uids: both counters end up at one uid's package, in either order one of the
      two loses its usage. */
  lemma SwapLosesUsage(before: map<string, Uid>, uids: map<string, Uid>, a: string, b: string, m: map<Uid, nat>)
    requires a != b && Moves(before, uids, a) && Moves(before, uids, b)
    requires uids[a] == before[b] && uids[b] == before[a] && before[a] in m && before[b] in m
    ensures var e := MoveAll(before, uids, [a, b], m);
      Entry(e, uids[a]) == None && Entry(e, uids[b]) == Some(m[before[a]])
    ensures var e := MoveAll(before, uids, [b, a], m);
      Entry(e, uids[b]) == None && Entry(e, uids[a]) == Some(m[before[b]])
  {
    assert [a, b][..1] == [a] && [a][..0] == [] && [b, a][..1] == [b] && [b][..0] == [];
    assert MoveAll(before, uids, [a], m) == Moved(m, before[a], uids[a]);
    assert MoveAll(before, uids, [b], m) == Moved(m, before[b], uids[b]);
  }
}
