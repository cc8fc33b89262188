/** Filtering, mapping and first appearances, with what they do to multisets. */
module Sequences {
  function Filter<T>(xs: seq<T>, p: T -> bool): seq<T> {
    if xs == [] then []
    else Filter(xs[..|xs| - 1], p) + if p(xs[|xs| - 1]) then [xs[|xs| - 1]] else []
  }

  function Map<T, U>(xs: seq<T>, f: T -> U): (r: seq<U>)
    ensures |r| == |xs|
    ensures forall i :: 0 <= i < |xs| ==> r[i] == f(xs[i])
  {
    seq(|xs|, i requires 0 <= i < |xs| => f(xs[i]))
  }

  /** `dict.fromkeys`: each value once, where it first appears. */
  function Distinct<T(==)>(xs: seq<T>): seq<T> {
    if xs == [] then []
    else
      var front := Distinct(xs[..|xs| - 1]);
      if xs[|xs| - 1] in front then front else front + [xs[|xs| - 1]]
  }

  lemma {:induction false} FilterSplits<T>(xs: seq<T>, p: T -> bool, q: T -> bool)
    requires forall x :: x in xs ==> p(x) != q(x)
    ensures multiset(Filter(xs, p)) + multiset(Filter(xs, q)) == multiset(xs)
  {
    if xs != [] {
      assert xs == xs[..|xs| - 1] + [xs[|xs| - 1]];
      FilterSplits(xs[..|xs| - 1], p, q);
    }
  }

  lemma FilterSnoc<T>(xs: seq<T>, x: T, p: T -> bool)
    ensures Filter(xs + [x], p) == Filter(xs, p) + if p(x) then [x] else []
  {
    assert (xs + [x])[..|xs|] == xs;
  }

  lemma {:induction false} FilterMembers<T>(xs: seq<T>, p: T -> bool)
    ensures forall x :: x in Filter(xs, p) <==> x in xs && p(x)
  {
    if xs != [] {
      assert xs == xs[..|xs| - 1] + [xs[|xs| - 1]];
      FilterMembers(xs[..|xs| - 1], p);
    }
  }

  predicate NoRepeats<T(==)>(xs: seq<T>) {
    forall i, k :: 0 <= i < k < |xs| ==> xs[i] != xs[k]
  }

  lemma {:induction false} NoRepeatsIff<T>(xs: seq<T>)
    ensures NoRepeats(xs) <==> forall x :: multiset(xs)[x] <= 1
  {
    if xs != [] {
      var n := |xs| - 1;
      NoRepeatsIff(xs[..n]);
      assert xs == xs[..n] + [xs[n]];
      assert multiset(xs) == multiset(xs[..n]) + multiset{xs[n]};
      if NoRepeats(xs) {
        assert xs[n] !in xs[..n];
        forall x ensures multiset(xs)[x] <= 1 {
          if x == xs[n] { assert x !in multiset(xs[..n]); }
        }
      }
      if forall x :: multiset(xs)[x] <= 1 {
        forall x ensures multiset(xs[..n])[x] <= 1 { assert multiset(xs)[x] <= 1; }
        assert multiset(xs)[xs[n]] <= 1;
        assert xs[n] !in multiset(xs[..n]);
        forall i | 0 <= i < n ensures xs[i] != xs[n] { assert xs[..n][i] in multiset(xs[..n]); }
      }
    }
  }

  lemma {:induction false} DistinctIsExact<T>(xs: seq<T>)
    ensures NoRepeats(Distinct(xs))
    ensures forall x :: x in Distinct(xs) <==> x in xs
  {
    if xs != [] {
      assert xs == xs[..|xs| - 1] + [xs[|xs| - 1]];
      DistinctIsExact(xs[..|xs| - 1]);
    }
  }

  lemma DistinctSnoc<T>(xs: seq<T>, x: T)
    ensures Distinct(xs + [x]) == Distinct(xs) + if x in Distinct(xs) then [] else [x]
  {
    assert (xs + [x])[..|xs|] == xs;
    assert Distinct(xs) + [] == Distinct(xs);
  }

  lemma MapConcat<T, U>(xs: seq<T>, ys: seq<T>, f: T -> U)
    ensures Map(xs + ys, f) == Map(xs, f) + Map(ys, f)
  {
  }

  function Without<T>(xs: seq<T>, k: nat): (r: seq<T>)
    requires k < |xs|
    ensures multiset(xs) == multiset(r) + multiset{xs[k]}
  {
    assert xs == xs[..k] + [xs[k]] + xs[k + 1..];
    xs[..k] + xs[k + 1..]
  }

  lemma MapWithout<T, U>(xs: seq<T>, k: nat, f: T -> U)
    requires k < |xs|
    ensures Map(Without(xs, k), f) == Without(Map(xs, f), k)
  {
  }

  /** Mapping respects permutation. */
  lemma {:induction false} MapPermutes<T, U>(xs: seq<T>, ys: seq<T>, f: T -> U)
    requires multiset(xs) == multiset(ys)
    ensures multiset(Map(xs, f)) == multiset(Map(ys, f))
  {
    if xs == [] {
      assert |multiset(ys)| == 0;
      assert ys == [];
    } else {
      assert xs[0] in multiset(xs);
      assert xs[0] in multiset(ys);
      var k :| 0 <= k < |ys| && ys[k] == xs[0];
      MapWithout(xs, 0, f);
      MapWithout(ys, k, f);
      assert multiset(Without(xs, 0)) == multiset(xs) - multiset{xs[0]};
      assert multiset(Without(ys, k)) == multiset(ys) - multiset{xs[0]};
      MapPermutes(Without(xs, 0), Without(ys, k), f);
    }
  }
}
