/** Order-preserving selection from a sequence, used for the row loops of the
    spreadsheet parser and for the query filters. */
module Seqs {
  import opened Wrappers

  /** Indices in [lo, hi) of the elements that `keep` selects, in increasing
      order: exactly the selected positions, each once. */
  function Survivors<T>(xs: seq<T>, keep: T -> bool, lo: nat, hi: nat): (s: seq<nat>)
    requires hi <= |xs|
    ensures |s| <= if lo <= hi then hi - lo else 0
    ensures forall k | 0 <= k < |s| :: lo <= s[k] < hi && keep(xs[s[k]])
    ensures forall k, l | 0 <= k < l < |s| :: s[k] < s[l]
    ensures forall j | lo <= j < hi && keep(xs[j]) :: j in s
    decreases hi
  {
    if hi <= lo then []
    else
      var prefix := Survivors(xs, keep, lo, hi - 1);
      if keep(xs[hi - 1]) then prefix + [hi - 1] else prefix
  }

  /** `xs.filter(keep)`. */
  function Filter<T>(xs: seq<T>, keep: T -> bool): (r: seq<T>)
    ensures |r| <= |xs|
    ensures forall x | x in r :: keep(x) && x in xs
    ensures forall x | x in xs && keep(x) :: x in r
  {
    if xs == [] then []
    else
      var rest := Filter(xs[..|xs| - 1], keep);
      if keep(xs[|xs| - 1]) then rest + [xs[|xs| - 1]] else rest
  }

  /** The filter is the image of the surviving positions: it keeps the selected
      elements in their original order. */
  lemma {:induction false} FilterIsImageOfSurvivors<T>(xs: seq<T>, keep: T -> bool)
    ensures var s := Survivors(xs, keep, 0, |xs|);
            |Filter(xs, keep)| == |s| && forall k | 0 <= k < |s| :: Filter(xs, keep)[k] == xs[s[k]]
  {
    if xs != [] {
      var init := xs[..|xs| - 1];
      FilterIsImageOfSurvivors(init, keep);
      SurvivorsOfPrefix(xs, keep, |xs| - 1);
      var before := Survivors(xs, keep, 0, |xs| - 1);
      assert Survivors(init, keep, 0, |init|) == before;
      var rest := Filter(init, keep);
      forall k | 0 <= k < |before| ensures rest[k] == xs[before[k]] {
        var j := before[k];
        assert j < |init| && rest[k] == init[j];
        assert init[j] == xs[j];
      }
      if keep(xs[|xs| - 1]) {
        assert Filter(xs, keep) == rest + [xs[|xs| - 1]];
        assert Survivors(xs, keep, 0, |xs|) == before + [|xs| - 1];
      } else {
        assert Filter(xs, keep) == rest;
        assert Survivors(xs, keep, 0, |xs|) == before;
      }
    }
  }

  /** Survivors below `hi` depend only on the first `hi` elements. */
  lemma {:induction false} SurvivorsOfPrefix<T>(xs: seq<T>, keep: T -> bool, hi: nat)
    requires hi <= |xs|
    ensures Survivors(xs[..hi], keep, 0, hi) == Survivors(xs, keep, 0, hi)
    decreases hi
  {
    if hi > 0 {
      SurvivorsOfPrefix(xs, keep, hi - 1);
      SurvivorsOfPrefix(xs[..hi], keep, hi - 1);
      assert xs[..hi][..hi - 1] == xs[..hi - 1];
    }
  }

  /** Filtering twice is filtering once by the conjunction. */
  lemma {:induction false} FilterFilter<T>(xs: seq<T>, p: T -> bool, q: T -> bool)
    ensures Filter(Filter(xs, p), q) == Filter(xs, x => p(x) && q(x))
  {
    if xs != [] {
      var init := xs[..|xs| - 1];
      FilterFilter(init, p, q);
      var fp := Filter(xs, p);
      if p(xs[|xs| - 1]) {
        assert fp[..|fp| - 1] == Filter(init, p);
      }
    }
  }

  /** Filtering by a predicate that holds everywhere changes nothing. */
  lemma {:induction false} FilterAll<T>(xs: seq<T>, keep: T -> bool)
    requires forall x | x in xs :: keep(x)
    ensures Filter(xs, keep) == xs
  {
    if xs != [] {
      FilterAll(xs[..|xs| - 1], keep);
    }
  }

  /** Filters by predicates that agree on the elements give the same result. */
  lemma {:induction false} FilterSame<T>(xs: seq<T>, p: T -> bool, q: T -> bool)
    requires forall x | x in xs :: p(x) == q(x)
    ensures Filter(xs, p) == Filter(xs, q)
  {
    if xs != [] {
      FilterSame(xs[..|xs| - 1], p, q);
    }
  }

  /** A filter applied only when `active` holds. */
  function FilterIf<T>(xs: seq<T>, active: bool, keep: T -> bool): seq<T> {
    if active then Filter(xs, keep) else xs
  }

  /** A filter applied only when `active` is a filter by the implication. */
  lemma FilterIfIsFilter<T>(xs: seq<T>, active: bool, f: T -> bool, g: T -> bool)
    requires forall x | x in xs :: g(x) == (active ==> f(x))
    ensures FilterIf(xs, active, f) == Filter(xs, g)
  {
    if active {
      FilterSame(xs, f, g);
    } else {
      FilterAll(xs, g);
    }
  }

  /** Three filters in a row are one filter by the conjunction. */
  lemma FilterThree<T>(xs: seq<T>, p: T -> bool, q: T -> bool, r: T -> bool, all: T -> bool)
    requires forall x | x in xs :: all(x) == (p(x) && q(x) && r(x))
    ensures Filter(Filter(Filter(xs, p), q), r) == Filter(xs, all)
  {
    FilterFilter(xs, p, q);
    var pq := x => p(x) && q(x);
    FilterFilter(xs, pq, r);
    FilterSame(xs, x => pq(x) && r(x), all);
  }

  /** The values `f` yields on the elements of `xs`, in order, skipping the
      elements it yields nothing for. */
  function FilterMap<T, U>(xs: seq<T>, f: T -> Option<U>): (r: seq<U>)
    ensures |r| <= |xs|
    ensures forall y | y in r :: exists k | 0 <= k < |xs| :: f(xs[k]) == Some(y)
  {
    if xs == [] then []
    else
      var init := xs[..|xs| - 1];
      var rest := FilterMap(init, f);
      assert forall k | 0 <= k < |init| :: init[k] == xs[k];
      match f(xs[|xs| - 1])
      case Some(y) => rest + [y]
      case None => rest
  }

  /** A sequence built from the first element and the next `n - 1` is the
      first `n`. */
  lemma PrefixStep<T>(s: seq<T>, n: nat, r: seq<T>, rest: seq<T>)
    requires 0 < n <= |s|
    requires r == [s[0]] + (s[1..][..n - 1] + rest)
    ensures r == s[..n] + rest
  {
    assert s[..n] == [s[0]] + s[1..][..n - 1];
  }

  /** The loop that collects `f`'s results over `xs[lo..]`, in order. */
  method FilterMapFrom<T, U>(xs: seq<T>, lo: nat, f: T -> Option<U>) returns (r: seq<U>)
    requires lo <= |xs|
    ensures r == FilterMap(xs[lo..], f)
  {
    r := [];
    var i := lo;
    while i < |xs|
      invariant lo <= i <= |xs|
      invariant r == FilterMap(xs[lo..i], f)
    {
      FilterMapSnoc(xs[lo..i], xs[i], f);
      SliceSnoc(xs, lo, i);
      match f(xs[i]) {
        case Some(y) => r := r + [y];
        case None =>
      }
      i := i + 1;
    }
    assert xs[lo..i] == xs[lo..];
  }

  /** A slice grown by one element at its end. */
  lemma SliceSnoc<T>(xs: seq<T>, lo: nat, hi: nat)
    requires lo <= hi < |xs|
    ensures xs[lo..hi + 1] == xs[lo..hi] + [xs[hi]]
  {
  }

  /** One more element: its value, if any, is appended. */
  lemma FilterMapSnoc<T, U>(xs: seq<T>, x: T, f: T -> Option<U>)
    ensures FilterMap(xs + [x], f) == FilterMap(xs, f) + match f(x) case Some(y) => [y] case None => []
  {
    assert (xs + [x])[..|xs|] == xs;
  }

  /** The elements `f` yields a value for, as a selection. */
  function Yields<T, U>(f: T -> Option<U>): T -> bool {
    x => f(x).Some?
  }

  /** `FilterMap` is the image of the positions `f` yields a value for: one
      value per such position, in the order of the positions. */
  lemma {:induction false} FilterMapIsImageOfSurvivors<T, U>(xs: seq<T>, f: T -> Option<U>)
    ensures var s := Survivors(xs, Yields(f), 0, |xs|);
      |FilterMap(xs, f)| == |s| && forall k | 0 <= k < |s| :: Some(FilterMap(xs, f)[k]) == f(xs[s[k]])
  {
    if xs != [] {
      var init := xs[..|xs| - 1];
      var keep := Yields(f);
      FilterMapIsImageOfSurvivors(init, f);
      SurvivorsOfPrefix(xs, keep, |xs| - 1);
      var before := Survivors(xs, keep, 0, |xs| - 1);
      var rest := FilterMap(init, f);
      assert |rest| == |before|;
      forall k | 0 <= k < |before| ensures Some(rest[k]) == f(xs[before[k]]) {
        assert init[before[k]] == xs[before[k]];
      }
      match f(xs[|xs| - 1])
      case Some(y) =>
        assert FilterMap(xs, f) == rest + [y];
        assert Survivors(xs, keep, 0, |xs|) == before + [|xs| - 1];
      case None =>
        assert FilterMap(xs, f) == rest;
        assert Survivors(xs, keep, 0, |xs|) == before;
    }
  }

  /** Positions selected by predicates that agree on the elements coincide. */
  lemma {:induction false} SurvivorsSame<T>(xs: seq<T>, p: T -> bool, q: T -> bool, lo: nat, hi: nat)
    requires hi <= |xs|
    requires forall x | x in xs :: p(x) == q(x)
    ensures Survivors(xs, p, lo, hi) == Survivors(xs, q, lo, hi)
    decreases hi
  {
    if hi > lo {
      SurvivorsSame(xs, p, q, lo, hi - 1);
      assert xs[hi - 1] in xs;
    }
  }
}
