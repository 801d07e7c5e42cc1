/**
 * `[...xs].sort((a, b) => key(a) - key(b))`: a stable insertion sort on
 * sequences, ascending by a numeric key. Descending sorts use the negated key.
 */
module Sorting {
  import Seqs

  ghost predicate SortedBy<T>(s: seq<T>, key: T -> real) {
    forall i, j :: 0 <= i < j < |s| ==> key(s[i]) <= key(s[j])
  }

  /** Inserts `x` before the first element whose key is not smaller. */
  function Insert<T(==)>(x: T, s: seq<T>, key: T -> real): (r: seq<T>)
    requires SortedBy(s, key)
    ensures SortedBy(r, key)
    ensures multiset(r) == multiset(s) + multiset{x}
    ensures |r| == |s| + 1
    ensures forall i :: 0 <= i < |r| ==> r[i] == x || r[i] in s
  {
    if |s| == 0 then [x]
    else if key(x) <= key(s[0]) then [x] + s
    else
      var rest := Insert(x, s[1..], key);
      InsertCons(x, s, rest, key);
      [s[0]] + rest
  }

  /** The recursive case of `Insert`: the head stays in front of the insertion into the tail. */
  lemma InsertCons<T>(x: T, s: seq<T>, rest: seq<T>, key: T -> real)
    requires |s| > 0 && SortedBy(s, key) && key(s[0]) < key(x)
    requires SortedBy(rest, key) && multiset(rest) == multiset(s[1..]) + multiset{x}
    requires forall i :: 0 <= i < |rest| ==> rest[i] == x || rest[i] in s[1..]
    ensures SortedBy([s[0]] + rest, key)
    ensures multiset([s[0]] + rest) == multiset(s) + multiset{x}
    ensures forall i :: 0 <= i < |[s[0]] + rest| ==> ([s[0]] + rest)[i] == x || ([s[0]] + rest)[i] in s
  {
    forall i | 0 <= i < |rest|
      ensures key(s[0]) <= key(rest[i])
    {
      if rest[i] != x {
        var j :| 0 <= j < |s[1..]| && s[1..][j] == rest[i];
        assert s[1..][j] == s[j + 1];
      }
    }
    ConsSorted(s[0], rest, key);
    assert s == [s[0]] + s[1..];
    var r := [s[0]] + rest;
    forall i | 0 <= i < |r|
      ensures r[i] == x || r[i] in s
    {
      if i > 0 {
        assert r[i] == rest[i - 1];
      }
    }
  }

  lemma ConsSorted<T>(h: T, rest: seq<T>, key: T -> real)
    requires SortedBy(rest, key) && forall i :: 0 <= i < |rest| ==> key(h) <= key(rest[i])
    ensures SortedBy([h] + rest, key)
  {
    var r := [h] + rest;
    assert forall i :: 1 <= i < |r| ==> r[i] == rest[i - 1];
  }

  function SortBy<T(==)>(s: seq<T>, key: T -> real): (r: seq<T>)
    ensures SortedBy(r, key)
    ensures multiset(r) == multiset(s)
    ensures |r| == |s|
  {
    if |s| == 0 then []
    else
      assert s == [s[0]] + s[1..];
      Insert(s[0], SortBy(s[1..], key), key)
  }

  /** A permutation has the same members. */
  lemma PermutationMembers<T>(s: seq<T>, r: seq<T>)
    requires multiset(r) == multiset(s)
    ensures forall x :: x in r <==> x in s
  {
    forall x
      ensures x in r <==> x in s
    {
      assert x in r <==> x in multiset(r);
      assert x in s <==> x in multiset(s);
    }
  }

  /** Sorting an already sorted sequence leaves it as it is. */
  lemma {:induction false} SortBySorted<T>(s: seq<T>, key: T -> real)
    requires SortedBy(s, key)
    ensures SortBy(s, key) == s
  {
    if |s| > 0 {
      SortBySorted(s[1..], key);
      assert s == [s[0]] + s[1..];
    }
  }

  // ---------------------------------------------------------------------------
  // Stability

  /** The elements of `s` whose key is `v`, in the order of `s`. */
  function Ties<T>(s: seq<T>, key: T -> real, v: real): seq<T> {
    Seqs.Filter(s, x => key(x) == v)
  }

  /** The ties of `[x] + s` are `x`'s own contribution followed by the ties of `s`. */
  lemma TiesCons<T>(x: T, s: seq<T>, key: T -> real, v: real)
    ensures Ties([x] + s, key, v) == (if key(x) == v then [x] else []) + Ties(s, key, v)
  {
    assert ([x] + s)[1..] == s;
  }

  /** Insertion puts `x` behind nothing that shares its key: `x` comes first among its ties, and the other ties keep their order. */
  lemma {:induction false} InsertTies<T>(x: T, s: seq<T>, key: T -> real, v: real)
    requires SortedBy(s, key)
    ensures Ties(Insert(x, s, key), key, v) == (if key(x) == v then [x] else []) + Ties(s, key, v)
    decreases |s|
  {
    if |s| == 0 {
      TiesCons(x, s, key, v);
    } else if key(x) <= key(s[0]) {
      TiesCons(x, s, key, v);
    } else {
      var rest := Insert(x, s[1..], key);
      assert Insert(x, s, key) == [s[0]] + rest;
      InsertTies(x, s[1..], key, v);
      TiesCons(s[0], rest, key, v);
      TiesCons(s[0], s[1..], key, v);
      assert s == [s[0]] + s[1..];
    }
  }

  /**
   * The sort is stable: among the elements with any one key, the result keeps
   * the order of the input. With `SortedBy` and the permutation this fixes
   * the result entirely.
   */
  lemma {:induction false} SortByStable<T>(s: seq<T>, key: T -> real, v: real)
    ensures Ties(SortBy(s, key), key, v) == Ties(s, key, v)
  {
    if |s| > 0 {
      SortByStable(s[1..], key, v);
      InsertTies(s[0], SortBy(s[1..], key), key, v);
      TiesCons(s[0], s[1..], key, v);
      assert s == [s[0]] + s[1..];
    }
  }
}
