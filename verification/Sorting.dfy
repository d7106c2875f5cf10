/** The vector operations `sort` and `dedup` used by the daemon, over any strict total order. */
module Sorting {

  ghost predicate StrictTotal<T(!new)>(less: (T, T) -> bool) {
    && (forall x :: !less(x, x))
    && (forall x, y, z :: less(x, y) && less(y, z) ==> less(x, z))
    && (forall x, y :: less(x, y) || x == y || less(y, x))
  }

  /** Strictly ascending: sorted and free of duplicates at once. */
  ghost predicate Ascending<T>(s: seq<T>, less: (T, T) -> bool) {
    forall i, j | 0 <= i < j < |s| :: less(s[i], s[j])
  }

  ghost predicate Sorted<T>(s: seq<T>, less: (T, T) -> bool) {
    forall i, j | 0 <= i < j < |s| :: !less(s[j], s[i])
  }

  function Insert<T>(x: T, s: seq<T>, less: (T, T) -> bool): seq<T> {
    if s == [] || !less(s[0], x) then [x] + s else [s[0]] + Insert(x, s[1..], less)
  }

  function Sort<T>(s: seq<T>, less: (T, T) -> bool): seq<T> {
    if s == [] then [] else Insert(s[0], Sort(s[1..], less), less)
  }

  /** Drops each element equal to its right neighbour, as a vector's `dedup` leaves one of each run. */
  function Dedup<T(==)>(s: seq<T>): seq<T> {
    if |s| <= 1 then s
    else if s[0] == s[1] then Dedup(s[1..])
    else [s[0]] + Dedup(s[1..])
  }

  function SortDedup<T(==)>(s: seq<T>, less: (T, T) -> bool): seq<T> {
    Dedup(Sort(s, less))
  }

  lemma {:induction false} InsertKeepsSorted<T(!new)>(x: T, s: seq<T>, less: (T, T) -> bool)
    requires StrictTotal(less) && Sorted(s, less)
    ensures Sorted(Insert(x, s, less), less)
    ensures forall y :: y in Insert(x, s, less) <==> y == x || y in s
  {
    if s == [] || !less(s[0], x) {
    } else {
      var rest := Insert(x, s[1..], less);
      InsertKeepsSorted(x, s[1..], less);
      assert forall y :: y in s <==> y == s[0] || y in s[1..];
      forall j | 0 <= j < |rest|
        ensures !less(rest[j], s[0])
      {
        assert rest[j] in rest;
      }
    }
  }

  lemma {:induction false} SortSorts<T(!new)>(s: seq<T>, less: (T, T) -> bool)
    requires StrictTotal(less)
    ensures Sorted(Sort(s, less), less)
    ensures forall y :: y in Sort(s, less) <==> y in s
  {
    if s == [] {
    } else {
      SortSorts(s[1..], less);
      InsertKeepsSorted(s[0], Sort(s[1..], less), less);
      assert forall y :: y in s <==> y == s[0] || y in s[1..];
    }
  }

  lemma {:induction false} DedupOfSorted<T(!new)>(s: seq<T>, less: (T, T) -> bool)
    requires StrictTotal(less) && Sorted(s, less)
    ensures Ascending(Dedup(s), less)
    ensures forall y :: y in Dedup(s) <==> y in s
  {
    if |s| <= 1 {
    } else {
      DedupOfSorted(s[1..], less);
      assert forall y :: y in s <==> y == s[0] || y in s[1..];
      var rest := Dedup(s[1..]);
      if s[0] != s[1] {
        forall j | 0 <= j < |rest|
          ensures less(s[0], rest[j])
        {
          assert rest[j] in rest;
          var k :| 1 <= k < |s| && s[k] == rest[j];
          assert !less(s[k], s[0]) && (k == 1 || !less(s[k], s[1])) && less(s[0], s[1]);
        }
      }
    }
  }

  /** Sorting then deduplicating yields the strictly ascending list of exactly the given elements. */
  lemma SortDedupSpec<T(!new)>(s: seq<T>, less: (T, T) -> bool)
    requires StrictTotal(less)
    ensures Ascending(SortDedup(s, less), less)
    ensures forall y :: y in SortDedup(s, less) <==> y in s
  {
    SortSorts(s, less);
    DedupOfSorted(Sort(s, less), less);
  }

  /** A strictly ascending list is determined by its elements, so it is a canonical form. */
  lemma {:induction false} AscendingUnique<T(!new)>(s: seq<T>, t: seq<T>, less: (T, T) -> bool)
    requires StrictTotal(less)
    requires Ascending(s, less) && Ascending(t, less)
    requires forall y :: y in s <==> y in t
    ensures s == t
  {
    assert (|s| > 0 ==> s[0] in s) && (|t| > 0 ==> t[0] in t);
    if s == [] {
    } else {
      assert s[0] == t[0];
      forall y
        ensures y in s[1..] <==> y in t[1..]
      {
        assert y in s <==> y == s[0] || y in s[1..];
        assert y in t <==> y == t[0] || y in t[1..];
        assert s[0] !in s[1..] && t[0] !in t[1..];
      }
      AscendingUnique(s[1..], t[1..], less);
    }
  }

  /** The order of integers, for weekday lists. */
  predicate NatLess(a: nat, b: nat) { a < b }

  /** The order of strings: lexicographic by code point. */
  predicate StringLess(a: string, b: string) {
    if b == "" then false
    else if a == "" then true
    else a[0] < b[0] || (a[0] == b[0] && StringLess(a[1..], b[1..]))
  }

  lemma {:induction false} StringLessIrreflexive(a: string)
    ensures !StringLess(a, a)
  {
    if a == "" {
    } else {
      StringLessIrreflexive(a[1..]);
    }
  }

  lemma {:induction false} StringLessTransitive(a: string, b: string, c: string)
    requires StringLess(a, b) && StringLess(b, c)
    ensures StringLess(a, c)
  {
    if a != "" && a[0] == b[0] == c[0] {
      StringLessTransitive(a[1..], b[1..], c[1..]);
    }
  }

  lemma {:induction false} StringLessConnected(a: string, b: string)
    ensures StringLess(a, b) || a == b || StringLess(b, a)
  {
    if a != "" && b != "" && a[0] == b[0] {
      StringLessConnected(a[1..], b[1..]);
      assert a == [a[0]] + a[1..] && b == [b[0]] + b[1..];
    }
  }

  lemma StringLessIsStrictTotal()
    ensures StrictTotal(StringLess)
  {
    forall x ensures !StringLess(x, x) { StringLessIrreflexive(x); }
    forall x, y, z | StringLess(x, y) && StringLess(y, z) ensures StringLess(x, z) {
      StringLessTransitive(x, y, z);
    }
    forall x, y ensures StringLess(x, y) || x == y || StringLess(y, x) { StringLessConnected(x, y); }
  }
}
