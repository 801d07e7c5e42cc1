/** The program's array operations, on sequences: `filter(Boolean)`, `slice`, sums. */
module Seqs {
  import opened Opt

  /** `xs.filter(x => x !== null)`: the present values, in order. */
  function FilterSome<T>(xs: seq<Option<T>>): (r: seq<T>)
    ensures |r| <= |xs|
    ensures forall x :: x in r ==> Some(x) in xs
    ensures forall i :: 0 <= i < |xs| && xs[i].Some? ==> xs[i].value in r
  {
    if |xs| == 0 then []
    else
      var rest := FilterSome(xs[1..]);
      assert forall i :: 1 <= i < |xs| ==> xs[i] == xs[1..][i - 1];
      (if xs[0].Some? then [xs[0].value] else []) + rest
  }

  /** Dropping the nulls distributes over concatenation, so the present values keep their relative order. */
  lemma {:induction false} FilterSomeAppend<T>(a: seq<Option<T>>, b: seq<Option<T>>)
    ensures FilterSome(a + b) == FilterSome(a) + FilterSome(b)
  {
    if |a| > 0 {
      assert (a + b)[1..] == a[1..] + b;
      FilterSomeAppend(a[1..], b);
    } else {
      assert a + b == b;
    }
  }

  /** A single slot contributes its value when present and nothing when null. */
  lemma FilterSomeSingle<T>(x: Option<T>)
    ensures FilterSome([x]) == if x.Some? then [x.value] else []
  {
    assert [x][1..] == [];
  }

  /** Nothing is dropped when every value is present. */
  lemma {:induction false} FilterSomeAllPresent<T>(xs: seq<Option<T>>)
    requires forall i :: 0 <= i < |xs| ==> xs[i].Some?
    ensures |FilterSome(xs)| == |xs|
    ensures forall i :: 0 <= i < |xs| ==> FilterSome(xs)[i] == xs[i].value
  {
    if |xs| > 0 {
      FilterSomeAllPresent(xs[1..]);
    }
  }

  function CountSome<T>(xs: seq<Option<T>>): nat {
    if |xs| == 0 then 0 else (if xs[0].Some? then 1 else 0) + CountSome(xs[1..])
  }

  lemma {:induction false} FilterSomeLength<T>(xs: seq<Option<T>>)
    ensures |FilterSome(xs)| == CountSome(xs)
  {
    if |xs| > 0 {
      FilterSomeLength(xs[1..]);
    }
  }

  /** `xs.filter(keep)`: the kept elements, in order. */
  function Filter<T>(xs: seq<T>, keep: T -> bool): (r: seq<T>)
    ensures |r| <= |xs|
    ensures forall i :: 0 <= i < |r| ==> keep(r[i]) && r[i] in xs
    ensures forall i :: 0 <= i < |xs| && keep(xs[i]) ==> xs[i] in r
  {
    if |xs| == 0 then []
    else (if keep(xs[0]) then [xs[0]] else []) + Filter(xs[1..], keep)
  }

  /** Filtering distributes over concatenation, so the kept elements keep their relative order. */
  lemma {:induction false} FilterAppend<T>(a: seq<T>, b: seq<T>, keep: T -> bool)
    ensures Filter(a + b, keep) == Filter(a, keep) + Filter(b, keep)
  {
    if |a| > 0 {
      assert (a + b)[1..] == a[1..] + b;
      FilterAppend(a[1..], b, keep);
    } else {
      assert a + b == b;
    }
  }

  /** A filter that keeps everything is the identity. */
  lemma {:induction false} FilterKeepsAll<T>(xs: seq<T>, keep: T -> bool)
    requires forall i :: 0 <= i < |xs| ==> keep(xs[i])
    ensures Filter(xs, keep) == xs
  {
    if |xs| > 0 {
      FilterKeepsAll(xs[1..], keep);
      assert xs == [xs[0]] + xs[1..];
    }
  }

  /** A filter that keeps nothing yields the empty sequence. */
  lemma {:induction false} FilterKeepsNone<T>(xs: seq<T>, keep: T -> bool)
    requires forall i :: 0 <= i < |xs| ==> !keep(xs[i])
    ensures Filter(xs, keep) == []
  {
    if |xs| > 0 {
      FilterKeepsNone(xs[1..], keep);
    }
  }

  /** Filters that agree on every element give the same result. */
  lemma {:induction false} FilterCongruent<T>(xs: seq<T>, p: T -> bool, q: T -> bool)
    requires forall i :: 0 <= i < |xs| ==> p(xs[i]) == q(xs[i])
    ensures Filter(xs, p) == Filter(xs, q)
  {
    if |xs| > 0 {
      FilterCongruent(xs[1..], p, q);
    }
  }

  /** When every element satisfies exactly one of two predicates, the two filters share the elements out between them. */
  lemma {:induction false} FilterSplit<T>(xs: seq<T>, p: T -> bool, q: T -> bool)
    requires forall i :: 0 <= i < |xs| ==> p(xs[i]) != q(xs[i])
    ensures |Filter(xs, p)| + |Filter(xs, q)| == |xs|
  {
    if |xs| > 0 {
      FilterSplit(xs[1..], p, q);
    }
  }

  /** No element occurs twice. */
  ghost predicate NoDuplicates<T>(s: seq<T>) {
    forall i, j :: 0 <= i < j < |s| ==> s[i] != s[j]
  }

  /** Filtering never adds a copy of an element. */
  lemma {:induction false} FilterCount<T>(xs: seq<T>, keep: T -> bool, x: T)
    ensures multiset(Filter(xs, keep))[x] <= multiset(xs)[x]
  {
    if |xs| > 0 {
      FilterCount(xs[1..], keep, x);
      assert xs == [xs[0]] + xs[1..];
    }
  }

  /** Without duplicates, every element occurs at most once. */
  lemma {:induction false} NoDuplicatesCount<T>(s: seq<T>, x: T)
    requires NoDuplicates(s)
    ensures multiset(s)[x] <= 1
  {
    if |s| > 0 {
      assert s == [s[0]] + s[1..];
      NoDuplicatesCount(s[1..], x);
      assert s[0] == x ==> x !in s[1..];
    }
  }

  /** An element at two positions occurs at least twice. */
  lemma TwoPositionsCount<T>(s: seq<T>, i: nat, j: nat)
    requires i < j < |s| && s[i] == s[j]
    ensures multiset(s)[s[i]] >= 2
  {
    assert s == s[..j] + s[j..];
    assert s[i] in s[..j] && s[j] in s[j..];
  }

  /** A rearrangement of a sequence without duplicates has none either. */
  lemma PermutationNoDuplicates<T>(s: seq<T>, r: seq<T>)
    requires multiset(r) == multiset(s) && NoDuplicates(s)
    ensures NoDuplicates(r)
  {
    forall i, j | 0 <= i < j < |r|
      ensures r[i] != r[j]
    {
      NoDuplicatesCount(s, r[i]);
      if r[i] == r[j] {
        TwoPositionsCount(r, i, j);
      }
    }
  }

  /** Filtering a sequence without duplicates leaves none. */
  lemma FilterNoDuplicates<T>(xs: seq<T>, keep: T -> bool)
    requires NoDuplicates(xs)
    ensures NoDuplicates(Filter(xs, keep))
  {
    var r := Filter(xs, keep);
    forall i, j | 0 <= i < j < |r|
      ensures r[i] != r[j]
    {
      NoDuplicatesCount(xs, r[i]);
      FilterCount(xs, keep, r[i]);
      if r[i] == r[j] {
        TwoPositionsCount(r, i, j);
      }
    }
  }

  /** Index normalisation of `Array.prototype.slice`: negative counts from the end, then clamp. */
  function SliceIndex(len: nat, x: int): (r: nat)
    ensures r <= len
  {
    if x < 0 then (if len + x < 0 then 0 else len + x) else (if x < len then x else len)
  }

  /** `s.slice(start, end)`. */
  function JsSlice<T>(s: seq<T>, start: int, end: int): (r: seq<T>)
    ensures |r| <= |s|
  {
    var from := SliceIndex(|s|, start);
    var to := SliceIndex(|s|, end);
    if from < to then s[from..to] else []
  }

  /** `s.slice(0, n)` for a count `n >= 0`: the first `min(n, |s|)` elements. */
  lemma TakeSlice<T>(s: seq<T>, n: nat)
    ensures JsSlice(s, 0, n) == s[..if n < |s| then n else |s|]
  {
  }

  /** `s.slice(0, end)` is always a prefix of `s`. */
  lemma SliceFromStart<T>(s: seq<T>, end: int)
    ensures JsSlice(s, 0, end) == s[..SliceIndex(|s|, end)]
  {
  }

  function SumReal(xs: seq<real>): real {
    if |xs| == 0 then 0.0 else xs[0] + SumReal(xs[1..])
  }

  /** The arithmetic mean, the program's `reduce((a, x) => a + x, 0) / xs.length`. */
  function Mean(xs: seq<real>): real
    requires |xs| > 0
  {
    SumReal(xs) / (|xs| as real)
  }

  lemma {:induction false} SumRealScale(xs: seq<real>, c: real)
    ensures SumReal(seq(|xs|, i requires 0 <= i < |xs| => c * xs[i])) == c * SumReal(xs)
  {
    var ys := seq(|xs|, i requires 0 <= i < |xs| => c * xs[i]);
    if |xs| > 0 {
      SumRealScale(xs[1..], c);
      var zs := seq(|xs[1..]|, i requires 0 <= i < |xs[1..]| => c * xs[1..][i]);
      assert forall i :: 0 <= i < |zs| ==> ys[1..][i] == zs[i];
      assert ys[1..] == zs;
    }
  }

  lemma {:induction false} SumRealConstant(xs: seq<real>, v: real)
    requires forall i :: 0 <= i < |xs| ==> xs[i] == v
    ensures SumReal(xs) == (|xs| as real) * v
  {
    if |xs| > 0 {
      SumRealConstant(xs[1..], v);
    }
  }

  /** Removing the element at `i` keeps every other element, in order, and only takes that one out of the multiset. */
  lemma RemoveAt<T>(s: seq<T>, i: nat)
    requires i < |s|
    ensures var r := s[..i] + s[i + 1..];
            |r| == |s| - 1
            && multiset(r) + multiset{s[i]} == multiset(s)
            && (forall k :: 0 <= k < i ==> r[k] == s[k])
            && (forall k :: i < k < |s| ==> r[k - 1] == s[k])
  {
    assert s == s[..i] + [s[i]] + s[i + 1..];
  }
}
