/** Retrieval metrics over ranked ids, with an arbitrary positive, strictly
    decreasing discount in place of the logarithm. */
module RankingMetrics {
  import opened Sequences

  type Id = string
  type Discount = int -> real

  ghost predicate Decreasing(d: Discount) {
    && (forall rank :: rank >= 1 ==> d(rank) > 0.0)
    && (forall a, b :: 1 <= a < b ==> d(a) > d(b))
  }

  function Min(a: nat, b: nat): nat { if a < b then a else b }

  function Top(ranked: seq<Id>, k: nat): seq<Id> { ranked[..Min(k, |ranked|)] }

  function Found(ranked: seq<Id>, relevant: set<Id>, k: nat): set<Id> {
    set id | id in Top(ranked, k) && id in relevant
  }

  function RecallAtK(ranked: seq<Id>, relevant: set<Id>, k: nat): real {
    if relevant == {} then 0.0 else |Found(ranked, relevant, k)| as real / |relevant| as real
  }

  /** The discounted gain of a list whose first element has rank 1. */
  function Dcg(ranked: seq<Id>, relevant: set<Id>, d: Discount): real {
    if ranked == [] then 0.0
    else Dcg(ranked[..|ranked| - 1], relevant, d) + if ranked[|ranked| - 1] in relevant then d(|ranked|) else 0.0
  }

  function Ideal(count: nat, d: Discount): real {
    if count == 0 then 0.0 else Ideal(count - 1, d) + d(count)
  }

  function NdcgAtK(ranked: seq<Id>, relevant: set<Id>, k: nat, d: Discount): real {
    if relevant == {} then 0.0
    else
      var ideal := Ideal(Min(|relevant|, k), d);
      if ideal == 0.0 then 0.0 else Dcg(Top(ranked, k), relevant, d) / ideal
  }

  // ----- recall -----

  lemma SubsetSize<T>(a: set<T>, b: set<T>)
    requires a <= b
    ensures |a| <= |b| && (|a| == |b| ==> a == b)
  {
    if a != b {
      assert b == a + (b - a);
      assert |b| == |a| + |b - a|;
    }
  }

  lemma Quotient(a: nat, b: nat, n: nat)
    requires a <= b && n > 0
    ensures a as real / n as real <= b as real / n as real
    ensures b <= n ==> b as real / n as real <= 1.0
    ensures b as real / n as real == 1.0 <==> b == n
  {
  }

  /** Recall stays in [0, 1], never falls as k grows, and is 1 exactly when every
      relevant id is among the first k. */
  lemma RecallGrows(ranked: seq<Id>, relevant: set<Id>, k: nat, more: nat)
    requires k <= more
    ensures 0.0 <= RecallAtK(ranked, relevant, k) <= RecallAtK(ranked, relevant, more) <= 1.0
    ensures RecallAtK(ranked, relevant, k) == 1.0 <==> relevant != {} && forall id :: id in relevant ==> id in Top(ranked, k)
  {
    if relevant != {} {
      var a, b := Found(ranked, relevant, k), Found(ranked, relevant, more);
      assert Top(ranked, k) == Top(ranked, more)[..|Top(ranked, k)|];
      SubsetSize(a, b);
      SubsetSize(b, relevant);
      SubsetSize(a, relevant);
      Quotient(|a|, |b|, |relevant|);
      Quotient(0, |a|, |relevant|);
      assert a == relevant <==> forall id :: id in relevant ==> id in Top(ranked, k);
    }
  }

  // ----- nDCG -----

  function Hits(ranked: seq<Id>, relevant: set<Id>): nat {
    if ranked == [] then 0
    else Hits(ranked[..|ranked| - 1], relevant) + if ranked[|ranked| - 1] in relevant then 1 else 0
  }

  ghost predicate AllRelevant(ranked: seq<Id>, relevant: set<Id>, n: nat) {
    n <= |ranked| && forall i :: 0 <= i < n ==> ranked[i] in relevant
  }

  lemma FrontIsNew(ranked: seq<Id>)
    requires NoRepeats(ranked) && ranked != []
    ensures NoRepeats(ranked[..|ranked| - 1]) && ranked[|ranked| - 1] !in ranked[..|ranked| - 1]
  {
  }

  lemma {:induction false} HitsBound(ranked: seq<Id>, relevant: set<Id>)
    requires NoRepeats(ranked)
    ensures Hits(ranked, relevant) == |set id | id in ranked && id in relevant|
    ensures Hits(ranked, relevant) <= |relevant|
    ensures Hits(ranked, relevant) <= |ranked|
  {
    hide NoRepeats;
    var found := set id | id in ranked && id in relevant;
    SubsetSize(found, relevant);
    if ranked != [] {
      var front, last := ranked[..|ranked| - 1], ranked[|ranked| - 1];
      FrontIsNew(ranked);
      HitsBound(front, relevant);
      assert ranked == front + [last];
      assert found == (set id | id in front && id in relevant) + if last in relevant then {last} else {};
    } else {
      assert found == {};
    }
  }

  lemma {:induction false} HitsOfPrefix(ranked: seq<Id>, relevant: set<Id>, n: nat)
    requires AllRelevant(ranked, relevant, n)
    ensures Hits(ranked, relevant) >= n
  {
    if ranked != [] {
      if n == |ranked| {
        HitsOfPrefix(ranked[..|ranked| - 1], relevant, n - 1);
      } else {
        HitsOfPrefix(ranked[..|ranked| - 1], relevant, n);
      }
    }
  }

  lemma {:induction false} IdealGrows(a: nat, b: nat, d: Discount)
    requires Decreasing(d) && a <= b
    ensures Ideal(a, d) <= Ideal(b, d)
    ensures a < b ==> Ideal(a, d) < Ideal(b, d)
  {
    if a < b { IdealGrows(a, b - 1, d); }
  }

  /** Rearrangement: h hits gain at most what h hits at the front would, and as
      much only when they are at the front. */
  lemma {:induction false} FrontIsBest(ranked: seq<Id>, relevant: set<Id>, d: Discount)
    requires Decreasing(d)
    ensures var h := Hits(ranked, relevant);
            && h <= |ranked| && 0.0 <= Dcg(ranked, relevant, d) <= Ideal(h, d)
            && (Dcg(ranked, relevant, d) == Ideal(h, d) <==> AllRelevant(ranked, relevant, h))
            && (Dcg(ranked, relevant, d) == 0.0 <==> h == 0)
  {
    if ranked != [] {
      var n := |ranked| - 1;
      var front := ranked[..n];
      var h := Hits(front, relevant);
      FrontIsBest(front, relevant, d);
      if ranked[n] in relevant {
        assert d(n + 1) <= d(h + 1) && (d(n + 1) == d(h + 1) <==> n == h);
        assert AllRelevant(ranked, relevant, h + 1) <==> h == n && AllRelevant(front, relevant, h) by {
          if AllRelevant(ranked, relevant, h + 1) && h < n {
            assert AllRelevant(front, relevant, h + 1);
            HitsOfPrefix(front, relevant, h + 1);
          }
        }
      } else {
        assert AllRelevant(ranked, relevant, h) <==> AllRelevant(front, relevant, h);
      }
    }
  }

  lemma NoRepeatsTop(ranked: seq<Id>, k: nat)
    requires NoRepeats(ranked)
    ensures NoRepeats(Top(ranked, k))
  {
  }

  /** No more hits among the first k than there are relevant ids. */
  predicate HitsFit(ranked: seq<Id>, relevant: set<Id>, k: nat) {
    Hits(Top(ranked, k), relevant) <= |relevant|
  }

  /** In particular when nothing is ranked twice. */
  lemma NoRepeatsFit(ranked: seq<Id>, relevant: set<Id>, k: nat)
    requires NoRepeats(ranked)
    ensures HitsFit(ranked, relevant, k)
  {
    NoRepeatsTop(ranked, k);
    HitsBound(Top(ranked, k), relevant);
  }

  lemma {:induction false} HitsLength(ranked: seq<Id>, relevant: set<Id>)
    ensures Hits(ranked, relevant) <= |ranked|
    ensures Hits(ranked, relevant) == 0 <==> forall id :: id in ranked ==> id !in relevant
  {
    if ranked != [] {
      HitsLength(ranked[..|ranked| - 1], relevant);
      assert ranked == ranked[..|ranked| - 1] + [ranked[|ranked| - 1]];
    }
  }

  lemma Ratio(a: real, b: real)
    requires 0.0 <= a <= b && b > 0.0
    ensures 0.0 <= a / b <= 1.0 && (a / b == 1.0 <==> a == b) && (a / b == 0.0 <==> a == 0.0)
  {
  }

  lemma FoundNothing(ranked: seq<Id>, relevant: set<Id>, k: nat)
    ensures Found(ranked, relevant, k) == {} <==> Hits(Top(ranked, k), relevant) == 0
  {
    HitsLength(Top(ranked, k), relevant);
    if Hits(Top(ranked, k), relevant) != 0 {
      var id :| id in Top(ranked, k) && id in relevant;
      assert id in Found(ranked, relevant, k);
    }
  }

  /** Where the hits fit nDCG lies in [0, 1]; it is 1 exactly when the first
      min(|relevant|, k) results are all relevant, and 0 exactly when none of the
      first k is. */
  lemma NdcgIsNormalised(ranked: seq<Id>, relevant: set<Id>, k: nat, d: Discount)
    requires HitsFit(ranked, relevant, k) && Decreasing(d)
    ensures 0.0 <= NdcgAtK(ranked, relevant, k, d) <= 1.0
    ensures NdcgAtK(ranked, relevant, k, d) == 1.0 <==>
              relevant != {} && k > 0 && AllRelevant(ranked, relevant, Min(|relevant|, k))
    ensures NdcgAtK(ranked, relevant, k, d) == 0.0 <==> Found(ranked, relevant, k) == {}
  {
    var top := Top(ranked, k);
    var h, best := Hits(top, relevant), Min(|relevant|, k);
    HitsLength(top, relevant);
    FoundNothing(ranked, relevant, k);
    FrontIsBest(top, relevant, d);
    IdealGrows(h, best, d);
    IdealGrows(0, best, d);
    if AllRelevant(ranked, relevant, best) { HitsOfPrefix(top, relevant, best); }
    assert AllRelevant(ranked, relevant, best) <==> AllRelevant(top, relevant, best);
    if relevant != {} && k > 0 {
      Ratio(Dcg(top, relevant, d), Ideal(best, d));
    }
  }

  /** A perfect nDCG with room for every relevant id means perfect recall. */
  lemma PerfectNdcgRecallsAll(ranked: seq<Id>, relevant: set<Id>, k: nat, d: Discount)
    requires NoRepeats(ranked) && Decreasing(d) && |relevant| <= k && NdcgAtK(ranked, relevant, k, d) == 1.0
    ensures RecallAtK(ranked, relevant, k) == 1.0
  {
    NoRepeatsFit(ranked, relevant, k);
    NdcgIsNormalised(ranked, relevant, k, d);
    NoRepeatsTop(ranked, k);
    HitsOfPrefix(Top(ranked, k), relevant, |relevant|);
    HitsBound(Top(ranked, k), relevant);
    SubsetSize(Found(ranked, relevant, k), relevant);
    RecallGrows(ranked, relevant, k, k);
  }

  // ----- exactly when nDCG is a ratio -----

  /** Every rank is worth between `base` and `base + 1`, the first ones a little more. */
  function Flat(base: real): Discount {
    rank => if rank >= 1 then base + 1.0 / rank as real else base + 1.0
  }

  lemma Scaled(x: real, y: real, factor: real)
    requires x < y && factor > 0.0
    ensures x * factor < y * factor
  {
    assert (y - x) * factor > 0.0;
    assert (y - x) * factor == y * factor - x * factor;
  }

  lemma InverseIs(x: real, q: real)
    requires x > 0.0 && q * x == 1.0
    ensures q == 1.0 / x
  {
  }

  /** x/(xy) is the inverse of y. */
  lemma InverseBy(x: real, y: real, p: real)
    requires x > 0.0 && y > 0.0 && x * y > 0.0 && p == 1.0 / (x * y)
    ensures p > 0.0 && x * p == 1.0 / y && y * p == 1.0 / x
  {
    assert p * (x * y) == 1.0;
    assert (x * p) * y == p * (x * y) == (y * p) * x;
    InverseIs(y, x * p);
    InverseIs(x, y * p);
  }

  lemma InverseLess(x: real, y: real)
    requires 0.0 < x < y
    ensures 0.0 < 1.0 / y < 1.0 / x
  {
    Scaled(0.0, x, y);
    var p := 1.0 / (x * y);
    InverseBy(x, y, p);
    Scaled(x, y, p);
    Scaled(0.0, x, p);
  }

  lemma InverseFalls(a: int, b: int)
    requires 1 <= a < b
    ensures 0.0 < 1.0 / b as real < 1.0 / a as real <= 1.0
  {
    InverseLess(a as real, b as real);
    if a > 1 { InverseLess(1.0, a as real); }
  }

  lemma FlatDecreases(base: real)
    requires base > 0.0
    ensures Decreasing(Flat(base))
    ensures forall rank :: rank >= 1 ==> base < Flat(base)(rank) <= base + 1.0
  {
    var d := Flat(base);
    forall rank | rank >= 1 ensures base < d(rank) <= base + 1.0 {
      if rank > 1 { InverseFalls(1, rank); }
    }
    forall a, b | 1 <= a < b ensures d(a) > d(b) {
      InverseFalls(a, b);
    }
  }

  lemma {:induction false} FlatIdeal(count: nat, base: real)
    requires base > 0.0
    ensures Ideal(count, Flat(base)) <= count as real * (base + 1.0)
  {
    if count > 0 {
      FlatIdeal(count - 1, base);
      FlatDecreases(base);
      assert count as real * (base + 1.0) == (count - 1) as real * (base + 1.0) + (base + 1.0);
    }
  }

  lemma {:induction false} FlatDcg(ranked: seq<Id>, relevant: set<Id>, base: real)
    requires base > 0.0
    ensures Dcg(ranked, relevant, Flat(base)) >= Hits(ranked, relevant) as real * base
  {
    if ranked != [] {
      var n := |ranked| - 1;
      FlatDcg(ranked[..n], relevant, base);
      FlatDecreases(base);
      var h := Hits(ranked[..n], relevant);
      assert (h + 1) as real * base == h as real * base + base;
    }
  }

  lemma AboveOne(a: real, b: real)
    requires a > b > 0.0
    ensures a / b > 1.0
  {
  }

  /** nDCG is at most 1 for every discount exactly when the first k results hold no
      more hits than min(|relevant|, k). With more, as when relevant ids are ranked
      twice, a discount that is nearly flat takes it above 1. */
  lemma NdcgBoundedIff(ranked: seq<Id>, relevant: set<Id>, k: nat)
    requires relevant != {} && k > 0
    ensures (forall d :: Decreasing(d) ==> NdcgAtK(ranked, relevant, k, d) <= 1.0) <==>
            Hits(Top(ranked, k), relevant) <= Min(|relevant|, k)
  {
    var top, m := Top(ranked, k), Min(|relevant|, k);
    var h := Hits(top, relevant);
    if h <= m {
      forall d | Decreasing(d) ensures NdcgAtK(ranked, relevant, k, d) <= 1.0 {
        NdcgIsNormalised(ranked, relevant, k, d);
      }
    } else {
      TooManyHits(ranked, relevant, k);
      FlatDecreases((m + 1) as real);
    }
  }

  lemma MoreHitsWin(h: nat, m: nat, base: real)
    requires h > m && base == (m + 1) as real
    ensures h as real * base > m as real * (base + 1.0)
  {
    assert h as real * base >= (m + 1) as real * base;
    assert (m + 1) as real * base == m as real * base + base;
    assert m as real * (base + 1.0) == m as real * base + m as real;
  }

  lemma SomeIdeal(count: nat, d: Discount)
    requires count > 0 && Decreasing(d)
    ensures Ideal(count, d) > 0.0
  {
    IdealGrows(0, count, d);
  }

  lemma TooManyHits(ranked: seq<Id>, relevant: set<Id>, k: nat)
    requires relevant != {} && k > 0 && Hits(Top(ranked, k), relevant) > Min(|relevant|, k)
    ensures NdcgAtK(ranked, relevant, k, Flat((Min(|relevant|, k) + 1) as real)) > 1.0
  {
    var top, m := Top(ranked, k), Min(|relevant|, k);
    var h, base := Hits(top, relevant), (m + 1) as real;
    hide Flat, Hits, Dcg, Ideal, Top;
    FlatDecreases(base);
    FlatIdeal(m, base);
    FlatDcg(top, relevant, base);
    MoreHitsWin(h, m, base);
    SomeIdeal(m, Flat(base));
    AboveOne(Dcg(top, relevant, Flat(base)), Ideal(m, Flat(base)));
  }

  /** Repeats are counted again, so with them nDCG can exceed 1. */
  lemma RepeatsExceedOne(d: Discount)
    requires Decreasing(d)
    ensures NdcgAtK(["a", "a"], {"a"}, 2, d) > 1.0
  {
    var ranked, relevant: set<Id> := ["a", "a"], {"a"};
    assert ranked[..1] == ["a"] && Top(ranked, 2) == ranked;
    assert Dcg(["a"], relevant, d) == d(1);
    assert Dcg(ranked, relevant, d) == d(1) + d(2);
    assert |relevant| == 1 && Ideal(1, d) == d(1);
    assert NdcgAtK(ranked, relevant, 2, d) == (d(1) + d(2)) / d(1);
    AboveOne(d(1) + d(2), d(1));
  }

  // ----- reciprocal rank -----

  predicate FirstRelevantAt(ranked: seq<Id>, relevant: set<Id>, i: nat) {
    i < |ranked| && ranked[i] in relevant && forall k :: 0 <= k < i ==> ranked[k] !in relevant
  }

  method ReciprocalRank(ranked: seq<Id>, relevant: set<Id>) returns (r: real)
    ensures r == 0.0 <==> forall id :: id in ranked ==> id !in relevant
    ensures forall i: nat :: FirstRelevantAt(ranked, relevant, i) ==> r * (i + 1) as real == 1.0
  {
    for i := 0 to |ranked|
      invariant forall k :: 0 <= k < i ==> ranked[k] !in relevant
    {
      if ranked[i] in relevant {
        Inverse(i + 1);
        return 1.0 / (i + 1) as real;
      }
    }
    return 0.0;
  }

  lemma Inverse(n: nat)
    requires n >= 1
    ensures 1.0 / n as real > 0.0 && 1.0 / n as real * n as real == 1.0
  {
  }
}
