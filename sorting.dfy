/**
 * A stable insertion sort over any total preorder. It stands for the
 * ORDER BY clauses of the queries: SQLite returns rows in key order and
 * leaves rows with equal keys in an order it does not promise; this sort
 * keeps them in table order.
 */
module Sorting {

  /** `le` is total and transitive: a valid ORDER BY key comparison. */
  ghost predicate IsTotalPreorder<T(!new)>(le: (T, T) -> bool) {
    && (forall a, b :: le(a, b) || le(b, a))
    && (forall a, b, c :: le(a, b) && le(b, c) ==> le(a, c))
  }

  /** Every element is `le` every later one. */
  predicate Sorted<T>(s: seq<T>, le: (T, T) -> bool) {
    forall i, j :: 0 <= i < j < |s| ==> le(s[i], s[j])
  }

  /** Inserts `x` before the first element it is `le`. */
  function Insert<T>(x: T, s: seq<T>, le: (T, T) -> bool): (r: seq<T>)
    ensures |r| == |s| + 1
    ensures multiset(r) == multiset(s) + multiset{x}
  {
    if s == [] then [x]
    else if le(x, s[0]) then [x] + s
    else
      assert s == [s[0]] + s[1..];
      [s[0]] + Insert(x, s[1..], le)
  }

  /** Inserting into a sorted sequence keeps it sorted. */
  lemma {:induction false} InsertSorted<T(!new)>(x: T, s: seq<T>, le: (T, T) -> bool)
    requires IsTotalPreorder(le) && Sorted(s, le)
    ensures Sorted(Insert(x, s, le), le)
  {
    if s != [] && !le(x, s[0]) {
      var t := Insert(x, s[1..], le);
      InsertSorted(x, s[1..], le);
      forall j | 0 <= j < |t| ensures le(s[0], t[j]) {
        assert t[j] in multiset(t);
        if t[j] != x {
          assert t[j] in multiset(s[1..]);
          var k :| 0 <= k < |s[1..]| && s[1..][k] == t[j];
          assert s[k + 1] == t[j];
        }
      }
      assert Insert(x, s, le) == [s[0]] + t;
    }
  }

  /** The elements of `s` in `le` order; elements that compare equal keep their order. */
  function Sort<T(!new)>(s: seq<T>, le: (T, T) -> bool): (r: seq<T>)
    requires IsTotalPreorder(le)
    ensures |r| == |s|
    ensures multiset(r) == multiset(s)
    ensures Sorted(r, le)
  {
    if s == [] then []
    else
      assert s == [s[0]] + s[1..];
      InsertSorted(s[0], Sort(s[1..], le), le);
      Insert(s[0], Sort(s[1..], le), le)
  }

  /** The elements of `s` that `le` ranks level with `k`, in their order in `s`. */
  function Ties<T>(s: seq<T>, le: (T, T) -> bool, k: T): seq<T> {
    if s == [] then []
    else (if le(s[0], k) && le(k, s[0]) then [s[0]] else []) + Ties(s[1..], le, k)
  }

  /** `Insert` puts `x` ahead of every element level with it. */
  lemma {:induction false} InsertTies<T(!new)>(x: T, s: seq<T>, le: (T, T) -> bool, k: T)
    requires IsTotalPreorder(le)
    ensures Ties(Insert(x, s, le), le, k) == (if le(x, k) && le(k, x) then [x] else []) + Ties(s, le, k)
  {
    if s == [] {
      assert [x][1..] == [];
    } else if le(x, s[0]) {
      assert ([x] + s)[1..] == s;
    } else {
      var t := Insert(x, s[1..], le);
      InsertTies(x, s[1..], le, k);
      assert ([s[0]] + t)[1..] == t;
      assert !(le(x, k) && le(k, x) && le(s[0], k) && le(k, s[0]));
    }
  }

  /** Stability: elements that `le` ranks level come out in the order they went in. */
  lemma {:induction false} SortIsStable<T(!new)>(s: seq<T>, le: (T, T) -> bool, k: T)
    requires IsTotalPreorder(le)
    ensures Ties(Sort(s, le), le, k) == Ties(s, le, k)
  {
    if s != [] {
      SortIsStable(s[1..], le, k);
      InsertTies(s[0], Sort(s[1..], le), le, k);
    }
  }

  lemma SortedMembers<T(!new)>(s: seq<T>, le: (T, T) -> bool, r: seq<T>)
    requires IsTotalPreorder(le) && r == Sort(s, le)
    ensures forall x :: x in s <==> x in r
  {
    forall x ensures x in s <==> x in r {
      assert x in s <==> x in multiset(s);
      assert x in r <==> x in multiset(r);
    }
  }
}
