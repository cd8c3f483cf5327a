/** Optional values and results with an error message: the model's stand-ins for
    Python's `None` and for exceptions that a caller catches. */
module Wrappers {

  datatype Option<+T> = None | Some(value: T)

  datatype Result<+T, +E> = Ok(value: T) | Err(error: E)
}

/** Generic facts about sequences used by several modules. */
module SeqUtil {
  import opened Wrappers

  /** `a` can be obtained from `b` by deleting elements (relative order kept). */
  predicate IsSubsequence<T(==)>(a: seq<T>, b: seq<T>)
    decreases |b|
  {
    if a == [] then true
    else if b == [] then false
    else if a[0] == b[0] then IsSubsequence(a[1..], b[1..])
    else IsSubsequence(a, b[1..])
  }

  /** Python's `[x for x in xs if p(x)]`. */
  function Filter<T(==)>(xs: seq<T>, p: T -> bool): (r: seq<T>)
    ensures |r| <= |xs|
    ensures forall i :: 0 <= i < |r| ==> p(r[i]) && r[i] in xs
    ensures forall i :: 0 <= i < |xs| && p(xs[i]) ==> xs[i] in r
  {
    if xs == [] then []
    else (if p(xs[0]) then [xs[0]] else []) + Filter(xs[1..], p)
  }

  lemma {:induction false} SubsequenceOfTail<T>(a: seq<T>, b: seq<T>, x: T)
    requires IsSubsequence(a, b)
    ensures IsSubsequence(a, [x] + b)
    decreases |b|, 1
  {
    assert ([x] + b)[1..] == b;
    if a != [] && a[0] == x {
      SubsequenceDropHead(a, b);
    }
  }

  lemma {:induction false} SubsequenceDropHead<T>(a: seq<T>, b: seq<T>)
    requires a != [] && IsSubsequence(a, b)
    ensures IsSubsequence(a[1..], b)
    decreases |b|, 0
  {
    assert b != [];
    assert [b[0]] + b[1..] == b;
    if a[0] != b[0] {
      SubsequenceDropHead(a, b[1..]);
    }
    SubsequenceOfTail(a[1..], b[1..], b[0]);
  }

  /** The elements a filter keeps form a subsequence of its input. */
  lemma {:induction false} FilterIsSubsequence<T>(xs: seq<T>, p: T -> bool)
    ensures IsSubsequence(Filter(xs, p), xs)
  {
    if xs != [] {
      FilterIsSubsequence(xs[1..], p);
      if p(xs[0]) {
        assert Filter(xs, p) == [xs[0]] + Filter(xs[1..], p);
      } else {
        assert Filter(xs, p) == Filter(xs[1..], p);
        SubsequenceOfTail(Filter(xs[1..], p), xs[1..], xs[0]);
        assert [xs[0]] + xs[1..] == xs;
      }
    }
  }

  /** A filter keeps every copy of an element it accepts and no copy of one it rejects. */
  lemma {:induction false} FilterCount<T>(xs: seq<T>, p: T -> bool, x: T)
    ensures multiset(Filter(xs, p))[x] == if p(x) then multiset(xs)[x] else 0
  {
    if xs != [] {
      FilterCount(xs[1..], p, x);
      assert xs == [xs[0]] + xs[1..];
      assert multiset(xs) == multiset([xs[0]]) + multiset(xs[1..]);
      var head: seq<T> := if p(xs[0]) then [xs[0]] else [];
      assert Filter(xs, p) == head + Filter(xs[1..], p);
      assert multiset(Filter(xs, p)) == multiset(head) + multiset(Filter(xs[1..], p));
    }
  }

  /** `FilterCount` for every element at once. */
  lemma FilterCounts<T>(xs: seq<T>, p: T -> bool)
    ensures forall x :: multiset(Filter(xs, p))[x] == if p(x) then multiset(xs)[x] else 0
  {
    forall x ensures multiset(Filter(xs, p))[x] == if p(x) then multiset(xs)[x] else 0 {
      FilterCount(xs, p, x);
    }
  }

  /** A weaker filter keeps a superset: filtering by `p` gives a subsequence of
      filtering by `q` whenever `p` implies `q`. */
  lemma {:induction false} FilterMonotone<T>(xs: seq<T>, p: T -> bool, q: T -> bool)
    requires forall i :: 0 <= i < |xs| && p(xs[i]) ==> q(xs[i])
    ensures IsSubsequence(Filter(xs, p), Filter(xs, q))
  {
    if xs != [] {
      FilterMonotone(xs[1..], p, q);
      var fp, fq := Filter(xs[1..], p), Filter(xs[1..], q);
      if p(xs[0]) {
        assert Filter(xs, p) == [xs[0]] + fp;
        assert Filter(xs, q) == [xs[0]] + fq;
        assert ([xs[0]] + fp)[1..] == fp;
        assert ([xs[0]] + fq)[1..] == fq;
      } else if q(xs[0]) {
        assert Filter(xs, p) == fp;
        assert Filter(xs, q) == [xs[0]] + fq;
        SubsequenceOfTail(fp, fq, xs[0]);
      } else {
        assert Filter(xs, p) == fp;
        assert Filter(xs, q) == fq;
      }
    }
  }

  /** Filtering distributes over concatenation. */
  lemma {:induction false} FilterConcat<T>(a: seq<T>, b: seq<T>, p: T -> bool)
    ensures Filter(a + b, p) == Filter(a, p) + Filter(b, p)
  {
    if a != [] {
      FilterConcat(a[1..], b, p);
      assert (a + b)[1..] == a[1..] + b;
    } else {
      assert a + b == b;
    }
  }

  /** A filter that rejects every element gives the empty sequence. */
  lemma {:induction false} FilterNone<T>(a: seq<T>, p: T -> bool)
    requires forall i :: 0 <= i < |a| ==> !p(a[i])
    ensures Filter(a, p) == []
  {
    if a != [] {
      FilterNone(a[1..], p);
    }
  }

  /** No element appears twice. */
  predicate Distinct<T(==)>(xs: seq<T>) {
    xs == [] || (xs[0] !in xs[1..] && Distinct(xs[1..]))
  }

  /** Filtering keeps elements distinct. */
  lemma {:induction false} FilterDistinct<T>(xs: seq<T>, p: T -> bool)
    requires Distinct(xs)
    ensures Distinct(Filter(xs, p))
  {
    if xs != [] {
      FilterDistinct(xs[1..], p);
      var rest := Filter(xs[1..], p);
      var f := Filter(xs, p);
      assert f == (if p(xs[0]) then [xs[0]] else []) + rest;
      if p(xs[0]) {
        assert f[0] == xs[0] && f[1..] == rest;
      } else {
        assert f == rest;
      }
    }
  }

  /** The index a loop that stops at the first element satisfying `p` stops at. */
  function FirstIndex<T>(xs: seq<T>, p: T -> bool): (r: Option<nat>)
    ensures r.None? <==> forall j :: 0 <= j < |xs| ==> !p(xs[j])
    ensures r.Some? ==> r.value < |xs| && p(xs[r.value]) && forall j :: 0 <= j < r.value ==> !p(xs[j])
  {
    if xs == [] then None
    else if p(xs[0]) then Some(0)
    else match FirstIndex(xs[1..], p)
      case None => None
      case Some(j) => Some(j + 1)
  }
  /** An element satisfying `p` with none before it is the first such. */
  lemma {:induction false} FirstIndexAt<T>(xs: seq<T>, p: T -> bool, k: nat)
    requires k < |xs| && p(xs[k]) && forall j :: 0 <= j < k ==> !p(xs[j])
    ensures FirstIndex(xs, p) == Some(k)
  {
  }

  /** The last index whose element satisfies `p`. */
  function LastIndex<T>(xs: seq<T>, p: T -> bool): (r: Option<nat>)
    ensures r.None? <==> forall j :: 0 <= j < |xs| ==> !p(xs[j])
    ensures r.Some? ==> r.value < |xs| && p(xs[r.value])
    ensures r.Some? ==> forall j :: r.value < j < |xs| ==> !p(xs[j])
  {
    if xs == [] then None
    else if p(xs[|xs| - 1]) then Some(|xs| - 1)
    else LastIndex(xs[..|xs| - 1], p)
  }

  /** An element satisfying `p` with none after it is the last such. */
  lemma {:induction false} LastIndexAt<T>(xs: seq<T>, p: T -> bool, k: nat)
    requires k < |xs| && p(xs[k]) && forall j :: k < j < |xs| ==> !p(xs[j])
    ensures LastIndex(xs, p) == Some(k)
  {
  }

  /** In `before + [x] + after`, `x` sits at `|before|` with `after` behind it. */
  lemma {:induction false} ElementsAfter<T>(before: seq<T>, x: T, after: seq<T>, p: T -> bool)
    requires forall j :: 0 <= j < |after| ==> !p(after[j])
    ensures (before + [x] + after)[|before|] == x
    ensures forall j :: |before| < j < |before + [x] + after| ==> !p((before + [x] + after)[j])
  {
    var xs := before + [x] + after;
    forall j | |before| < j < |xs| ensures !p(xs[j]) {
      assert xs[j] == after[j - |before| - 1];
    }
  }

  /** The concatenation of `f` over `xs`, in order. */
  function FlatMap<T, U>(xs: seq<T>, f: T -> seq<U>): seq<U> {
    if xs == [] then [] else FlatMap(xs[..|xs| - 1], f) + f(xs[|xs| - 1])
  }

  lemma {:induction false} FlatMapSnoc<T, U>(xs: seq<T>, x: T, f: T -> seq<U>)
    ensures FlatMap(xs + [x], f) == FlatMap(xs, f) + f(x)
  {
    assert (xs + [x])[..|xs|] == xs;
  }

  /** A loop that appends `f` of each element of `xs[first..]`, left to right. */
  method FlatMapFrom<T, U>(xs: seq<T>, first: nat, f: T -> seq<U>) returns (r: seq<U>)
    requires first <= |xs|
    ensures r == FlatMap(xs[first..], f)
  {
    r := [];
    var i := first;
    while i < |xs|
      invariant first <= i <= |xs|
      invariant r == FlatMap(xs[first..i], f)
    {
      r := r + f(xs[i]);
      assert xs[first..i + 1] == xs[first..i] + [xs[i]];
      FlatMapSnoc(xs[first..i], xs[i], f);
      i := i + 1;
    }
    assert xs[first..i] == xs[first..];
  }

  lemma {:induction false} FlatMapConcat<T, U>(a: seq<T>, b: seq<T>, f: T -> seq<U>)
    ensures FlatMap(a + b, f) == FlatMap(a, f) + FlatMap(b, f)
    decreases |b|
  {
    if b == [] {
      assert a + b == a;
    } else {
      var n := |b| - 1;
      FlatMapConcat(a, b[..n], f);
      assert (a + b)[..|a + b| - 1] == a + b[..n];
      assert (a + b)[|a + b| - 1] == b[n];
    }
  }

  lemma {:induction false} FlatMapMember<T, U>(xs: seq<T>, f: T -> seq<U>, v: U)
    ensures v in FlatMap(xs, f) <==> exists j :: 0 <= j < |xs| && v in f(xs[j])
  {
    if xs != [] {
      var n := |xs| - 1;
      FlatMapMember(xs[..n], f, v);
      SomeIndexOfInit(xs, xs[..n], f, v);
    }
  }

  /** Some element of `xs` has `v` in its image exactly when some element before the
      last does or the last does. */
  lemma {:induction false} SomeIndexOfInit<T, U>(xs: seq<T>, init: seq<T>, f: T -> seq<U>, v: U)
    requires xs != [] && init == xs[..|xs| - 1]
    ensures (exists j :: 0 <= j < |xs| && v in f(xs[j])) <==>
      (exists j :: 0 <= j < |init| && v in f(init[j])) || v in f(xs[|xs| - 1])
  {
    var n := |xs| - 1;
    if exists j :: 0 <= j < n && v in f(init[j]) {
      var j :| 0 <= j < n && v in f(init[j]);
      assert xs[j] == init[j];
    }
    if exists j :: 0 <= j < |xs| && v in f(xs[j]) {
      var j :| 0 <= j < |xs| && v in f(xs[j]);
      if j < n {
        assert init[j] == xs[j];
      }
    }
  }

  /** The same split for a function whose images are sets. */
  lemma {:induction false} SomeSetIndexOfInit<T, U>(xs: seq<T>, init: seq<T>, f: T -> set<U>, v: U)
    requires xs != [] && init == xs[..|xs| - 1]
    ensures (exists j :: 0 <= j < |xs| && v in f(xs[j])) <==>
      (exists j :: 0 <= j < |init| && v in f(init[j])) || v in f(xs[|xs| - 1])
  {
    var n := |xs| - 1;
    if exists j :: 0 <= j < n && v in f(init[j]) {
      var j :| 0 <= j < n && v in f(init[j]);
      assert xs[j] == init[j];
    }
    if exists j :: 0 <= j < |xs| && v in f(xs[j]) {
      var j :| 0 <= j < |xs| && v in f(xs[j]);
      if j < n {
        assert init[j] == xs[j];
      }
    }
  }
}
