/** Code point order on strings and the stable sort both used for ranking. */
module Ordering {
  import opened Sequences

  predicate StringLess(a: string, b: string) {
    if b == "" then false
    else if a == "" then true
    else if a[0] != b[0] then a[0] < b[0]
    else StringLess(a[1..], b[1..])
  }

  lemma {:induction false} StringLessTotal(a: string, b: string)
    ensures a == b || StringLess(a, b) || StringLess(b, a)
    ensures !(StringLess(a, b) && StringLess(b, a))
  {
    if a != "" && b != "" {
      StringLessTotal(a[1..], b[1..]);
      assert a == [a[0]] + a[1..] && b == [b[0]] + b[1..];
    }
  }

  lemma {:induction false} StringLessTransitive(a: string, b: string, c: string)
    requires StringLess(a, b) && StringLess(b, c)
    ensures StringLess(a, c)
  {
    if a != "" && a[0] == b[0] == c[0] {
      StringLessTransitive(a[1..], b[1..], c[1..]);
    }
  }

  /** Code point order: a proper prefix comes first, else the first difference decides. */
  lemma {:induction false} StringLessIff(a: string, b: string)
    ensures StringLess(a, b) <==>
              || a < b
              || exists k :: 0 <= k < |a| && k < |b| && a[..k] == b[..k] && a[k] < b[k]
  {
    if a != "" && b != "" && a[0] == b[0] {
      var at, bt := a[1..], b[1..];
      StringLessIff(at, bt);
      assert a == [a[0]] + at && b == [a[0]] + bt;
      assert a < b <==> at < bt;
      forall k | 0 <= k < |at| && k < |bt| && at[..k] == bt[..k] && at[k] < bt[k]
        ensures a[..k + 1] == b[..k + 1] && a[k + 1] < b[k + 1]
      {
        assert a[..k + 1] == [a[0]] + at[..k] && b[..k + 1] == [a[0]] + bt[..k];
      }
      forall k | 0 <= k < |a| && k < |b| && a[..k] == b[..k] && a[k] < b[k]
        ensures k > 0 && at[..k - 1] == bt[..k - 1] && at[k - 1] < bt[k - 1]
      {
        assert at[..k - 1] == a[1..k] && bt[..k - 1] == b[1..k] && a[1..k] == a[..k][1..] && b[1..k] == b[..k][1..];
      }
    } else if a != "" && b != "" {
      if a[0] < b[0] { assert a[..0] == b[..0]; }
    }
  }

  /** `less` orders ranks, and elements of one rank are not ordered. */
  ghost predicate WeakOrder<T(!new)>(less: (T, T) -> bool) {
    && (forall a, b :: less(a, b) ==> !less(b, a))
    && (forall a, b, c :: less(a, c) ==> less(a, b) || less(b, c))
  }

  ghost predicate Ordered<T>(xs: seq<T>, less: (T, T) -> bool) {
    forall i, k :: 0 <= i < k < |xs| ==> !less(xs[k], xs[i])
  }

  function Insert<T>(xs: seq<T>, less: (T, T) -> bool, x: T): seq<T> {
    if xs == [] || !less(x, xs[|xs| - 1]) then xs + [x]
    else Insert(xs[..|xs| - 1], less, x) + [xs[|xs| - 1]]
  }

  /** Python's `sorted`: stable insertion, see `SortIsStable`. */
  function Sort<T>(xs: seq<T>, less: (T, T) -> bool): seq<T> {
    if xs == [] then [] else Insert(Sort(xs[..|xs| - 1], less), less, xs[|xs| - 1])
  }

  lemma {:induction false} InsertKeeps<T>(xs: seq<T>, less: (T, T) -> bool, x: T)
    ensures multiset(Insert(xs, less, x)) == multiset(xs) + multiset{x}
  {
    if xs != [] && less(x, xs[|xs| - 1]) {
      InsertKeeps(xs[..|xs| - 1], less, x);
      assert xs == xs[..|xs| - 1] + [xs[|xs| - 1]];
    }
  }

  lemma {:induction false} SortKeeps<T>(xs: seq<T>, less: (T, T) -> bool)
    ensures multiset(Sort(xs, less)) == multiset(xs)
  {
    if xs != [] {
      SortKeeps(xs[..|xs| - 1], less);
      InsertKeeps(Sort(xs[..|xs| - 1], less), less, xs[|xs| - 1]);
      assert xs == xs[..|xs| - 1] + [xs[|xs| - 1]];
    }
  }

  lemma {:induction false} InsertOrders<T(!new)>(xs: seq<T>, less: (T, T) -> bool, x: T)
    requires WeakOrder(less) && Ordered(xs, less)
    ensures Ordered(Insert(xs, less, x), less)
  {
    if xs != [] {
      var n := |xs| - 1;
      var last := xs[n];
      if less(x, last) {
        var front := Insert(xs[..n], less, x);
        InsertOrders(xs[..n], less, x);
        InsertKeeps(xs[..n], less, x);
        forall i | 0 <= i < |front| ensures !less(last, front[i]) {
          assert front[i] in multiset(front);
          assert front[i] == x || front[i] in xs[..n];
        }
      } else {
        forall i | 0 <= i < |xs| ensures !less(x, xs[i]) {
          assert i < n ==> !less(last, xs[i]);
        }
      }
    }
  }

  lemma {:induction false} SortOrders<T(!new)>(xs: seq<T>, less: (T, T) -> bool)
    requires WeakOrder(less)
    ensures Ordered(Sort(xs, less), less)
  {
    if xs != [] {
      SortOrders(xs[..|xs| - 1], less);
      InsertOrders(Sort(xs[..|xs| - 1], less), less, xs[|xs| - 1]);
    }
  }

  /** Neither comes before the other. */
  function SameRank<T>(less: (T, T) -> bool, e: T): T -> bool {
    x => !less(x, e) && !less(e, x)
  }

  lemma {:induction false} InsertIsStable<T(!new)>(xs: seq<T>, less: (T, T) -> bool, x: T, e: T)
    requires WeakOrder(less)
    ensures Filter(Insert(xs, less, x), SameRank(less, e)) == Filter(xs + [x], SameRank(less, e))
  {
    var p := SameRank(less, e);
    FilterSnoc(xs, x, p);
    if xs != [] && less(x, xs[|xs| - 1]) {
      var front, last := xs[..|xs| - 1], xs[|xs| - 1];
      InsertIsStable(front, less, x, e);
      FilterSnoc(Insert(front, less, x), last, p);
      FilterSnoc(front, x, p);
      assert !(p(x) && p(last));
    }
  }

  /** The sort is stable: the elements of any one rank keep their input order. */
  lemma {:induction false} SortIsStable<T(!new)>(xs: seq<T>, less: (T, T) -> bool, e: T)
    requires WeakOrder(less)
    ensures Filter(Sort(xs, less), SameRank(less, e)) == Filter(xs, SameRank(less, e))
  {
    if xs != [] {
      var front, last := xs[..|xs| - 1], xs[|xs| - 1];
      SortIsStable(front, less, e);
      InsertIsStable(Sort(front, less), less, last, e);
      FilterSnoc(Sort(front, less), last, SameRank(less, e));
    }
  }
}
