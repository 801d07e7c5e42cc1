/**
 * `Array.from(new Set(xs)).sort()`: the distinct values of a sequence in
 * strictly increasing order, for any strict total order. The default
 * `sort()` compares strings by code unit, modelled by `LexLess` on characters.
 */
module OrderedSets {

  /** `less` is irreflexive, transitive and total. */
  ghost predicate StrictOrder<T(!new)>(less: (T, T) -> bool) {
    (forall x :: !less(x, x))
    && (forall x, y, z :: less(x, y) && less(y, z) ==> less(x, z))
    && (forall x, y :: x == y || less(x, y) || less(y, x))
  }

  ghost predicate StrictlySorted<T>(s: seq<T>, less: (T, T) -> bool) {
    forall i, j :: 0 <= i < j < |s| ==> less(s[i], s[j])
  }

  /** Adds `x` at its place in a strictly sorted sequence, unless it is already there. */
  function InsertUnique<T(==,!new)>(x: T, s: seq<T>, less: (T, T) -> bool): (r: seq<T>)
    requires StrictOrder(less) && StrictlySorted(s, less)
    ensures StrictlySorted(r, less)
    ensures forall y :: y in r <==> y == x || y in s
  {
    if |s| == 0 then [x]
    else if x == s[0] then s
    else if less(x, s[0]) then
      var r := [x] + s;
      assert forall j :: 1 <= j < |r| ==> r[j] == s[j - 1];
      r
    else
      var rest := InsertUnique(x, s[1..], less);
      assert less(s[0], x);
      assert forall y :: y in s[1..] ==> less(s[0], y) by {
        forall y | y in s[1..]
          ensures less(s[0], y)
        {
          var k :| 0 <= k < |s[1..]| && s[1..][k] == y;
          assert s[k + 1] == y;
        }
      }
      assert s == [s[0]] + s[1..];
      var r := [s[0]] + rest;
      assert forall j :: 1 <= j < |r| ==> r[j] == rest[j - 1] && r[j] in rest;
      r
  }

  /** The distinct values of `xs`, in increasing order. */
  function SortedDistinct<T(==,!new)>(xs: seq<T>, less: (T, T) -> bool): (r: seq<T>)
    requires StrictOrder(less)
    ensures StrictlySorted(r, less)
    ensures forall y :: y in r <==> y in xs
    ensures |r| <= |xs|
  {
    if |xs| == 0 then []
    else
      var rest := SortedDistinct(xs[1..], less);
      assert xs == [xs[0]] + xs[1..];
      var r := InsertUnique(xs[0], rest, less);
      NoDuplicates(r, less);
      NoDuplicates(rest, less);
      CountDistinct(xs[0], rest, r);
      r
  }

  /** A strictly sorted sequence has no repeated value. */
  lemma NoDuplicates<T(!new)>(s: seq<T>, less: (T, T) -> bool)
    requires StrictOrder(less) && StrictlySorted(s, less)
    ensures forall i, j :: 0 <= i < j < |s| ==> s[i] != s[j]
  {
    forall i, j | 0 <= i < j < |s|
      ensures s[i] != s[j]
    {
      assert less(s[i], s[j]);
    }
  }

  /** Adding one value to a repetition-free sequence grows it by at most one. */
  lemma CountDistinct<T>(x: T, s: seq<T>, r: seq<T>)
    requires forall i, j :: 0 <= i < j < |s| ==> s[i] != s[j]
    requires forall i, j :: 0 <= i < j < |r| ==> r[i] != r[j]
    requires forall y :: y in r <==> y == x || y in s
    ensures |r| <= |s| + 1
  {
    var sr := set y | y in r;
    var ss := set y | y in s;
    DistinctCard(r);
    DistinctCard(s);
    assert sr <= ss + {x};
    assert |ss + {x}| <= |ss| + 1;
    SubsetCard(sr, ss + {x});
  }

  lemma {:induction false} DistinctCard<T>(s: seq<T>)
    requires forall i, j :: 0 <= i < j < |s| ==> s[i] != s[j]
    ensures |set y | y in s| == |s|
  {
    if |s| > 0 {
      var tail := s[1..];
      DistinctCard(tail);
      assert (set y | y in s) == (set y | y in tail) + {s[0]};
      assert s[0] !in tail;
    }
  }

  lemma SubsetCard<T>(a: set<T>, b: set<T>)
    requires a <= b
    ensures |a| <= |b|
  {
    assert b == a + (b - a);
  }

  /** A strictly sorted sequence is determined by its values: there is exactly one way to list a set in order. */
  lemma {:induction false} SortedByMembers<T(!new)>(a: seq<T>, b: seq<T>, less: (T, T) -> bool)
    requires StrictOrder(less) && StrictlySorted(a, less) && StrictlySorted(b, less)
    requires forall y :: y in a <==> y in b
    ensures a == b
  {
    if |a| > 0 {
      assert a[0] in b;
    }
    if |b| > 0 {
      assert b[0] in a;
    }
    if |a| > 0 {
      var a0, b0 := a[0], b[0];
      assert a0 == b0 by {
        var i :| 0 <= i < |b| && b[i] == a0;
        var j :| 0 <= j < |a| && a[j] == b0;
        assert i == 0 || less(b0, a0);
        assert j == 0 || less(a0, b0);
      }
      forall y
        ensures y in a[1..] <==> y in b[1..]
      {
        if y in a[1..] {
          var k :| 0 <= k < |a[1..]| && a[1..][k] == y;
          assert less(a[0], a[k + 1]);
          assert y != b[0];
          assert y in b;
          var l :| 0 <= l < |b| && b[l] == y;
          assert b[1..][l - 1] == y;
        }
        if y in b[1..] {
          var k :| 0 <= k < |b[1..]| && b[1..][k] == y;
          assert less(b[0], b[k + 1]);
          assert y != a[0];
          assert y in a;
          var l :| 0 <= l < |a| && a[l] == y;
          assert a[1..][l - 1] == y;
        }
      }
      SortedByMembers(a[1..], b[1..], less);
      assert a == [a[0]] + a[1..] && b == [b[0]] + b[1..];
    }
  }

  // ---------------------------------------------------------------------------
  // The two orders the filters use

  predicate IntLess(a: int, b: int) {
    a < b
  }

  lemma IntLessOrder()
    ensures StrictOrder(IntLess)
  {
  }

  /** String comparison as `sort()` performs it: character by character, a proper prefix first. */
  predicate LexLess(a: string, b: string)
    decreases |a|
  {
    if |a| == 0 then |b| > 0
    else if |b| == 0 then false
    else if a[0] == b[0] then LexLess(a[1..], b[1..])
    else a[0] < b[0]
  }

  lemma {:induction false} LexIrreflexive(a: string)
    ensures !LexLess(a, a)
    decreases |a|
  {
    if |a| > 0 {
      LexIrreflexive(a[1..]);
    }
  }

  lemma {:induction false} LexTransitive(a: string, b: string, c: string)
    requires LexLess(a, b) && LexLess(b, c)
    ensures LexLess(a, c)
    decreases |a|
  {
    if |a| > 0 && a[0] == b[0] && b[0] == c[0] {
      LexTransitive(a[1..], b[1..], c[1..]);
    }
  }

  lemma {:induction false} LexTotal(a: string, b: string)
    ensures a == b || LexLess(a, b) || LexLess(b, a)
    decreases |a|
  {
    if |a| > 0 && |b| > 0 && a[0] == b[0] {
      LexTotal(a[1..], b[1..]);
      if a[1..] == b[1..] {
        assert a == [a[0]] + a[1..] && b == [b[0]] + b[1..];
      }
    }
  }

  /** The code-unit order on strings is a strict total order. */
  lemma LexOrder()
    ensures StrictOrder(LexLess)
  {
    forall x: string
      ensures !LexLess(x, x)
    {
      LexIrreflexive(x);
    }
    forall x: string, y: string, z: string | LexLess(x, y) && LexLess(y, z)
      ensures LexLess(x, z)
    {
      LexTransitive(x, y, z);
    }
    forall x: string, y: string
      ensures x == y || LexLess(x, y) || LexLess(y, x)
    {
      LexTotal(x, y);
    }
  }
}
