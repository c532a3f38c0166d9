/** Sequence facts that hold whatever the elements are: slicing, the
    leftmost position at which an attempt succeeds, and concatenating what a
    function yields for each element. */
module Sequences {

  import opened Optional

  /** The first `mid - lo` elements of `s[lo..hi]` are `s[lo..mid]`. */
  lemma SlicePrefix<T>(s: seq<T>, lo: nat, mid: nat, hi: nat)
    requires lo <= mid <= hi <= |s|
    ensures s[lo..hi][..mid - lo] == s[lo..mid]
  {
  }

  /** Taking one more element of `s` after `before` appends that element. */
  lemma PrefixSnoc<T>(before: seq<T>, s: seq<T>, j: nat)
    requires j < |s|
    ensures before + s[..j + 1] == (before + s[..j]) + [s[j]]
  {
    assert s[..j + 1] == s[..j] + [s[j]];
  }

  /** The first position from `i` up to `n` at which `attempt` succeeds,
      with what it yields there, or None when it succeeds nowhere. */
  function Leftmost<X>(attempt: nat -> Option<X>, n: nat, i: nat): Option<(nat, X)>
    requires i <= n
    decreases n - i
  {
    match attempt(i)
    case Some(x) => Some((i, x))
    case None => if i == n then None else Leftmost(attempt, n, i + 1)
  }

  /** Leftmost finds a position where the attempt succeeds, with no success
      before it, and finds nothing only when every attempt fails. */
  lemma {:induction false} LeftmostIsFirst<X>(attempt: nat -> Option<X>, n: nat, i: nat)
    requires i <= n
    ensures Leftmost(attempt, n, i).Some? ==> i <= Leftmost(attempt, n, i).value.0 <= n
    ensures Leftmost(attempt, n, i).Some? ==> attempt(Leftmost(attempt, n, i).value.0) == Some(Leftmost(attempt, n, i).value.1)
    ensures Leftmost(attempt, n, i).Some? ==> forall j :: i <= j < Leftmost(attempt, n, i).value.0 ==> attempt(j).None?
    ensures Leftmost(attempt, n, i).None? ==> forall j :: i <= j <= n ==> attempt(j).None?
    decreases n - i
  {
    if attempt(i).None? && i < n {
      LeftmostIsFirst(attempt, n, i + 1);
    }
  }

  /** `f(xs[0]) + f(xs[1]) + ...`, built from the front, one element at a time. */
  function FlatMap<A, B>(f: A -> seq<B>, xs: seq<A>): seq<B>
  {
    if xs == [] then [] else FlatMap(f, xs[..|xs| - 1]) + f(xs[|xs| - 1])
  }

  /** One more element adds what `f` yields for it at the end, after
      whatever `prior` came first. */
  lemma FlatMapSnoc<A, B>(prior: seq<B>, f: A -> seq<B>, xs: seq<A>, k: nat)
    requires k < |xs|
    ensures prior + FlatMap(f, xs[..k + 1]) == (prior + FlatMap(f, xs[..k])) + f(xs[k])
  {
    assert xs[..k + 1][..k] == xs[..k];
  }

  /** FlatMap of two sequences one after the other is the FlatMap of each,
      concatenated. */
  lemma {:induction false} FlatMapAppend<A, B>(f: A -> seq<B>, a: seq<A>, b: seq<A>)
    ensures FlatMap(f, a + b) == FlatMap(f, a) + FlatMap(f, b)
    decreases |b|
  {
    if b == [] {
      assert a + b == a;
    } else {
      var n := |b| - 1;
      assert (a + b)[..|a + b| - 1] == a + b[..n];
      assert (a + b)[|a + b| - 1] == b[n];
      FlatMapAppend(f, a, b[..n]);
      calc {
        FlatMap(f, a + b);
        FlatMap(f, a + b[..n]) + f(b[n]);
        (FlatMap(f, a) + FlatMap(f, b[..n])) + f(b[n]);
        FlatMap(f, a) + (FlatMap(f, b[..n]) + f(b[n]));
        FlatMap(f, a) + FlatMap(f, b);
      }
    }
  }

  /** What FlatMap yields is exactly what `f` yields for some element. */
  lemma {:induction false} FlatMapMembers<A, B>(f: A -> seq<B>, xs: seq<A>, y: B)
    ensures y in FlatMap(f, xs) <==> exists x :: x in xs && y in f(x)
    decreases |xs|
  {
    if xs != [] {
      var n := |xs| - 1;
      FlatMapMembers(f, xs[..n], y);
      assert xs == xs[..n] + [xs[n]];
      if y in f(xs[n]) {
        assert xs[n] in xs;
      }
      forall x | x in xs && y in f(x) ensures y in FlatMap(f, xs) {
        if x != xs[n] {
          assert x in xs[..n];
        }
      }
    }
  }

  /** When `f` yields at most one element each time, FlatMap is no longer than
      its input. */
  lemma {:induction false} FlatMapAtMostOne<A, B>(f: A -> seq<B>, xs: seq<A>)
    requires forall x :: x in xs ==> |f(x)| <= 1
    ensures |FlatMap(f, xs)| <= |xs|
    decreases |xs|
  {
    if xs != [] {
      var n := |xs| - 1;
      assert forall x :: x in xs[..n] ==> x in xs;
      FlatMapAtMostOne(f, xs[..n]);
      assert xs[n] in xs;
    }
  }

  /** When `f` yields exactly one element each time, FlatMap yields those
      elements, one per input element, in order. */
  lemma {:induction false} FlatMapOneEach<A, B>(f: A -> seq<B>, xs: seq<A>)
    requires forall i :: 0 <= i < |xs| ==> |f(xs[i])| == 1
    ensures |FlatMap(f, xs)| == |xs|
    ensures forall i :: 0 <= i < |xs| ==> FlatMap(f, xs)[i] == f(xs[i])[0]
    decreases |xs|
  {
    if xs != [] {
      var n := |xs| - 1;
      var prefix := xs[..n];
      assert forall i :: 0 <= i < n ==> prefix[i] == xs[i];
      FlatMapOneEach(f, prefix);
      assert FlatMap(f, xs) == FlatMap(f, prefix) + f(xs[n]);
    }
  }
}
