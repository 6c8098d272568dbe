/** Shared vocabulary: optional values and the outcome of a call that may throw. */
module Common {
  datatype Option<+T> = None | Some(value: T)

  /** `Failure(e)` stands for the source throwing `e`. */
  datatype Result<+T, +E> = Success(value: T) | Failure(error: E)

  /** The subsequence of `xs` whose elements satisfy `p`, in order. */
  function Filter<T(!new)>(xs: seq<T>, p: T -> bool): (r: seq<T>)
    ensures |r| <= |xs|
    ensures forall x :: x in r <==> x in xs && p(x)
  {
    if xs == [] then []
    else
      var rest := Filter(xs[..|xs| - 1], p);
      assert xs == xs[..|xs| - 1] + [xs[|xs| - 1]];
      if p(xs[|xs| - 1]) then rest + [xs[|xs| - 1]] else rest
  }

  lemma {:induction false} FilterSnoc<T(!new)>(xs: seq<T>, x: T, p: T -> bool)
    ensures Filter(xs + [x], p) == Filter(xs, p) + if p(x) then [x] else []
  {
    assert (xs + [x])[..|xs|] == xs;
  }

  lemma {:induction false} FilterConcat<T(!new)>(xs: seq<T>, ys: seq<T>, p: T -> bool)
    ensures Filter(xs + ys, p) == Filter(xs, p) + Filter(ys, p)
  {
    if ys == [] {
      assert xs + ys == xs;
    } else {
      var init, last := ys[..|ys| - 1], ys[|ys| - 1];
      assert ys == init + [last];
      assert xs + ys == (xs + init) + [last];
      FilterConcat(xs, init, p);
      FilterSnoc(xs + init, last, p);
      FilterSnoc(init, last, p);
    }
  }

  lemma {:induction false} FilterNone<T(!new)>(xs: seq<T>, p: T -> bool)
    requires forall x :: x in xs ==> !p(x)
    ensures Filter(xs, p) == []
  {
    if xs != [] {
      FilterNone(xs[..|xs| - 1], p);
    }
  }

  lemma {:induction false} FilterAll<T(!new)>(xs: seq<T>, p: T -> bool)
    requires forall x :: x in xs ==> p(x)
    ensures Filter(xs, p) == xs
  {
    if xs != [] {
      FilterAll(xs[..|xs| - 1], p);
    }
  }

  /** The places where `p` holds. */
  function Places<T(!new)>(xs: seq<T>, p: T -> bool): (r: set<nat>)
    ensures forall i: nat :: i in r <==> i < |xs| && p(xs[i])
  {
    set i: nat | i < |xs| && p(xs[i])
  }

  lemma {:induction false} PlacesSnoc<T(!new)>(xs: seq<T>, x: T, p: T -> bool)
    ensures |Places(xs + [x], p)| == |Places(xs, p)| + if p(x) then 1 else 0
  {
    hide Places;
    var before, now, n := Places(xs, p), Places(xs + [x], p), |xs|;
    var expected := if p(x) then before + {n} else before;
    forall i: nat ensures i in now <==> i in expected {
      if i < n { assert (xs + [x])[i] == xs[i]; }
    }
    assert now == expected;
  }

  lemma {:induction false} FilterCounts<T(!new)>(xs: seq<T>, p: T -> bool)
    ensures |Filter(xs, p)| == |Places(xs, p)|
  {
    if xs == [] {
      assert Places(xs, p) == {};
    } else {
      var init, last := xs[..|xs| - 1], xs[|xs| - 1];
      assert xs == init + [last];
      hide Places, Filter;
      FilterCounts(init, p);
      FilterSnoc(init, last, p);
      PlacesSnoc(init, last, p);
    }
  }

  /** The elements of a sequence. */
  function SetOf<T>(xs: seq<T>): set<T> {
    set x | x in xs
  }

  /** A sequence without repetitions has as many elements as entries. */
  lemma {:induction false} SetOfDistinct<T>(xs: seq<T>)
    requires forall i, j :: 0 <= i < j < |xs| ==> xs[i] != xs[j]
    ensures |SetOf(xs)| == |xs|
  {
    if xs != [] {
      var init, last := xs[..|xs| - 1], xs[|xs| - 1];
      SetOfDistinct(init);
      assert xs == init + [last] && last !in init;
      assert SetOf(xs) == SetOf(init) + {last};
    }
  }

  lemma {:induction false} SubsetSize<T>(a: set<T>, b: set<T>)
    requires a <= b
    ensures |a| <= |b|
    ensures |a| == |b| ==> a == b
  {
    assert b == a + (b - a);
  }
}
