/**
 The array operations the containers are built from: JavaScript's
 Array.prototype.filter, map and find, over immutable sequences, together with
 an independent description of what a filter returns (an order-preserving
 subsequence holding exactly the kept elements).
 */
module Collections {

  /** `undefined`/`null` versus a present value. */
  datatype Option<T> = None | Some(value: T)

  /** Number of elements of `s` that satisfy `p`. */
  function Count<T>(s: seq<T>, p: T -> bool): nat
  {
    if s == [] then 0 else (if p(s[0]) then 1 else 0) + Count(s[1..], p)
  }

  /** `a` is obtained from `b` by deleting elements, keeping the order of the rest. */
  predicate IsSubsequence<T(==)>(a: seq<T>, b: seq<T>)
    decreases |b|
  {
    if a == [] then true
    else if b == [] then false
    else (a[0] == b[0] && IsSubsequence(a[1..], b[1..])) || IsSubsequence(a, b[1..])
  }

  /** Array.prototype.filter: the elements of `s` that satisfy `keep`, in order. */
  function Filter<T(==)>(s: seq<T>, keep: T -> bool): (r: seq<T>)
    ensures IsSubsequence(r, s)
    ensures forall x :: x in r ==> keep(x)
    ensures forall x :: x in s && keep(x) ==> x in r
    ensures |r| == Count(s, keep)
  {
    if s == [] then []
    else
      var rest := Filter(s[1..], keep);
      if keep(s[0]) then
        assert ([s[0]] + rest)[1..] == rest;
        [s[0]] + rest
      else
        assert rest != [] ==> IsSubsequence(rest, s[1..]);
        rest
  }

  /** Array.prototype.map: `f` applied to every element, position by position. */
  function Map<T, U>(s: seq<T>, f: T -> U): (r: seq<U>)
    ensures |r| == |s|
    ensures forall i :: 0 <= i < |s| ==> r[i] == f(s[i])
  {
    if s == [] then [] else [f(s[0])] + Map(s[1..], f)
  }

  /** Array.prototype.findIndex: the first position whose element satisfies `p`. */
  function FindIndex<T>(s: seq<T>, p: T -> bool): (r: Option<nat>)
    ensures r.Some? ==> r.value < |s| && p(s[r.value])
    ensures r.Some? ==> forall j :: 0 <= j < r.value ==> !p(s[j])
    ensures r.None? ==> forall j :: 0 <= j < |s| ==> !p(s[j])
  {
    if s == [] then None
    else if p(s[0]) then Some(0)
    else
      match FindIndex(s[1..], p)
      case None =>
        assert forall j :: 1 <= j < |s| ==> s[j] == s[1..][j - 1];
        None
      case Some(i) =>
        assert forall j :: 1 <= j <= i ==> s[j] == s[1..][j - 1];
        Some(i + 1)
  }

  /** Array.prototype.find: the first element that satisfies `p`, or nothing. */
  function Find<T>(s: seq<T>, p: T -> bool): (r: Option<T>)
    ensures r.None? <==> forall j :: 0 <= j < |s| ==> !p(s[j])
    ensures r.Some? ==> exists i :: 0 <= i < |s| && s[i] == r.value && p(s[i]) &&
                                    forall j :: 0 <= j < i ==> !p(s[j])
  {
    match FindIndex(s, p)
    case None => None
    case Some(i) => Some(s[i])
  }

  lemma {:induction false} CountAppend<T>(a: seq<T>, b: seq<T>, p: T -> bool)
    ensures Count(a + b, p) == Count(a, p) + Count(b, p)
  {
    if a == [] {
      assert a + b == b;
    } else {
      assert (a + b)[1..] == a[1..] + b;
      CountAppend(a[1..], b, p);
    }
  }

  /** At most every element is counted. */
  lemma {:induction false} CountBound<T>(s: seq<T>, p: T -> bool)
    ensures Count(s, p) <= |s|
  {
    if s != [] {
      CountBound(s[1..], p);
    }
  }

  /** No element satisfies `p` exactly when the count is zero. */
  lemma {:induction false} CountZero<T>(s: seq<T>, p: T -> bool)
    ensures Count(s, p) == 0 <==> forall j :: 0 <= j < |s| ==> !p(s[j])
  {
    if s != [] {
      CountZero(s[1..], p);
      assert forall j :: 1 <= j < |s| ==> s[j] == s[1..][j - 1];
    }
  }

  /** A subsequence made only of kept elements cannot be longer than the number of them. */
  lemma {:induction false} SubsequenceCountBound<T>(a: seq<T>, b: seq<T>, keep: T -> bool)
    requires IsSubsequence(a, b)
    requires forall x :: x in a ==> keep(x)
    ensures |a| <= Count(b, keep)
    decreases |b|
  {
    if a != [] {
      if a[0] == b[0] && IsSubsequence(a[1..], b[1..]) {
        assert forall x :: x in a[1..] ==> x in a;
        SubsequenceCountBound(a[1..], b[1..], keep);
      } else {
        SubsequenceCountBound(a, b[1..], keep);
      }
    }
  }

  /**
   The three facts Filter ensures (subsequence, only kept elements, as many as
   there are kept elements) pin its result down: any sequence with them is it.
   */
  lemma {:induction false} FilterUnique<T>(s: seq<T>, keep: T -> bool, r: seq<T>)
    requires IsSubsequence(r, s)
    requires forall x :: x in r ==> keep(x)
    requires |r| == Count(s, keep)
    ensures r == Filter(s, keep)
    decreases |s|
  {
    if s == [] {
    } else if r == [] {
      var f := Filter(s, keep);
      assert |f| == 0;
    } else if r[0] == s[0] && IsSubsequence(r[1..], s[1..]) {
      assert keep(s[0]) by { assert r[0] in r; }
      assert forall x :: x in r[1..] ==> x in r;
      FilterUnique(s[1..], keep, r[1..]);
      assert r == [s[0]] + r[1..];
    } else {
      assert IsSubsequence(r, s[1..]);
      SubsequenceCountBound(r, s[1..], keep);
      if keep(s[0]) {
        assert false;
      } else {
        FilterUnique(s[1..], keep, r);
      }
    }
  }

  /** Filtering with a predicate every element already satisfies changes nothing. */
  lemma {:induction false} FilterAllKept<T>(s: seq<T>, keep: T -> bool)
    requires forall x :: x in s ==> keep(x)
    ensures Filter(s, keep) == s
  {
    if s != [] {
      assert s[0] in s;
      assert forall x :: x in s[1..] ==> x in s;
      FilterAllKept(s[1..], keep);
      assert s == [s[0]] + s[1..];
    }
  }

  /** Applying the same filter twice gives what applying it once gives. */
  lemma FilterIdempotent<T>(s: seq<T>, keep: T -> bool)
    ensures Filter(Filter(s, keep), keep) == Filter(s, keep)
  {
  }
}
