/**
 * The `order_by(...)` of the ORM queries, as an insertion sort of record ids
 * by an integer key. Ties are left in whatever order the insertion gives:
 * the database does not promise a tie order either.
 */
module Ordering {

  type Id = nat

  /** No id occurs twice. */
  predicate Distinct(s: seq<Id>) {
    forall i, j :: 0 <= i < j < |s| ==> s[i] != s[j]
  }

  /** Keys do not decrease along `s`. */
  predicate SortedBy(s: seq<Id>, key: Id -> int) {
    forall i, j :: 0 <= i < j < |s| ==> key(s[i]) <= key(s[j])
  }

  /** The ids of `s`, as a set. */
  function Elements(s: seq<Id>): set<Id> {
    set i | 0 <= i < |s| :: s[i]
  }

  lemma ElementsConcat(a: seq<Id>, b: seq<Id>)
    ensures Elements(a + b) == Elements(a) + Elements(b)
  {
    forall y | y in Elements(a + b) ensures y in Elements(a) + Elements(b) {
      var i :| 0 <= i < |a + b| && (a + b)[i] == y;
      if i >= |a| { assert b[i - |a|] == y; }
    }
    forall y | y in Elements(b) ensures y in Elements(a + b) {
      var i :| 0 <= i < |b| && b[i] == y;
      assert (a + b)[|a| + i] == y;
    }
    forall y | y in Elements(a) ensures y in Elements(a + b) {
      var i :| 0 <= i < |a| && a[i] == y;
      assert (a + b)[i] == y;
    }
  }

  /** Prepending an element no larger than any of a sorted sequence keeps it sorted. */
  lemma SortedCons(a: Id, t: seq<Id>, key: Id -> int)
    requires SortedBy(t, key)
    requires forall y :: y in Elements(t) ==> key(a) <= key(y)
    ensures SortedBy([a] + t, key)
  {
    forall i, j | 0 <= i < j < |t| + 1 ensures key(([a] + t)[i]) <= key(([a] + t)[j]) {
      if i == 0 {
        assert t[j - 1] in Elements(t);
      } else {
        assert ([a] + t)[i] == t[i - 1] && ([a] + t)[j] == t[j - 1];
      }
    }
  }

  /** Prepending a new element keeps a sequence free of repetitions. */
  lemma DistinctCons(a: Id, t: seq<Id>)
    requires Distinct(t) && a !in Elements(t)
    ensures Distinct([a] + t)
  {
    forall i, j | 0 <= i < j < |t| + 1 ensures ([a] + t)[i] != ([a] + t)[j] {
      assert t[j - 1] in Elements(t);
      if i > 0 { assert ([a] + t)[i] == t[i - 1]; }
    }
  }

  /** Splits a non-empty sequence into its head and its tail. */
  lemma Uncons(s: seq<Id>, key: Id -> int)
    requires s != []
    ensures Elements(s) == {s[0]} + Elements(s[1..])
    ensures Distinct(s) ==> Distinct(s[1..]) && s[0] !in Elements(s[1..])
    ensures SortedBy(s, key) ==> SortedBy(s[1..], key) && forall y :: y in Elements(s[1..]) ==> key(s[0]) <= key(y)
  {
    assert s == [s[0]] + s[1..];
    ElementsConcat([s[0]], s[1..]);
    assert Elements([s[0]]) == {s[0]} by { assert [s[0]][0] == s[0]; }
  }

  /** Puts `x` in front of the first element whose key is not smaller. */
  function Insert(s: seq<Id>, x: Id, key: Id -> int): (r: seq<Id>)
    ensures |r| == |s| + 1
    ensures Elements(r) == Elements(s) + {x}
    ensures Distinct(s) && x !in Elements(s) ==> Distinct(r)
    ensures SortedBy(s, key) ==> SortedBy(r, key)
    decreases |s|
  {
    if s == [] || key(x) <= key(s[0]) then
      ElementsConcat([x], s);
      assert Elements([x]) == {x} by { assert [x][0] == x; }
      assert Distinct(s) && x !in Elements(s) ==> Distinct([x] + s) by {
        if Distinct(s) && x !in Elements(s) { DistinctCons(x, s); }
      }
      assert SortedBy(s, key) ==> SortedBy([x] + s, key) by {
        if SortedBy(s, key) && s != [] { Uncons(s, key); SortedCons(x, s, key); }
      }
      [x] + s
    else
      var t := Insert(s[1..], x, key);
      Uncons(s, key);
      ElementsConcat([s[0]], t);
      assert Elements([s[0]]) == {s[0]} by { assert [s[0]][0] == s[0]; }
      assert Distinct(s) && x !in Elements(s) ==> Distinct([s[0]] + t) by {
        if Distinct(s) && x !in Elements(s) { DistinctCons(s[0], t); }
      }
      assert SortedBy(s, key) ==> SortedBy([s[0]] + t, key) by {
        if SortedBy(s, key) { SortedCons(s[0], t, key); }
      }
      [s[0]] + t
  }

  /**
   * The ids of `ids`, each exactly once, in ascending key order: what
   * `.order_by(key)` yields for a query that selects exactly `ids`.
   */
  method SortByKey(ids: set<Id>, key: Id -> int) returns (r: seq<Id>)
    ensures Elements(r) == ids && |r| == |ids|
    ensures Distinct(r)
    ensures SortedBy(r, key)
  {
    r := [];
    var rest := ids;
    while rest != {}
      invariant rest <= ids
      invariant Elements(r) == ids - rest
      invariant |r| + |rest| == |ids|
      invariant Distinct(r)
      invariant SortedBy(r, key)
      decreases |rest|
    {
      var x :| x in rest;
      r := Insert(r, x, key);
      rest := rest - {x};
    }
  }
}
