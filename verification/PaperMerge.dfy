/** Merging the records academic providers return: the merge is associative and
    keeps the paper's key, so deduplication does not depend on how the input was
    batched. */
module PaperMerge {
  import opened Wrappers
  import opened Sequences
  import Ordering

  datatype Paper = Paper(
    title: string, authors: seq<string>, abstractText: Option<string>, year: Option<int>, doi: Option<string>,
    arxiv: Option<string>, venue: Option<string>, cited: Option<int>, openAccess: Option<bool>,
    url: Option<string>, externalIds: map<string, string>, sources: seq<string>, score: Option<real>)

  /** The text normalisations the key is built with. */
  datatype Normaliser = Normaliser(doi: string -> string, fold: string -> string, title: string -> string)

  datatype PaperKey = Doi(string) | Arxiv(string) | Title(string)

  function Key(n: Normaliser, p: Paper): PaperKey {
    if Given(p.doi) then Doi(n.doi(p.doi.value))
    else if Given(p.arxiv) then Arxiv(n.fold(p.arxiv.value))
    else Title(n.title(p.title))
  }

  predicate Given(s: Option<string>) { s.Some? && s.value != "" }

  function Prefer<T>(left: Option<T>, right: Option<T>): Option<T> {
    if left.Some? then left else right
  }

  function PreferText(left: Option<string>, right: Option<string>): Option<string> {
    if Given(left) then left else right
  }

  function LongerAbstract(left: Option<string>, right: Option<string>): Option<string> {
    if Given(right) && (left.None? || |right.value| > |left.value|) then right else left
  }

  function MostCited(left: Option<int>, right: Option<int>): Option<int> {
    if left.None? then right
    else if right.None? || left.value >= right.value then left
    else right
  }

  /** `sorted(set(...))`. */
  function SortedSet(xs: seq<string>): seq<string> {
    Ordering.Sort(Distinct(xs), Ordering.StringLess)
  }

  function Merge(left: Paper, right: Paper): Paper {
    Paper(
      title := if |left.title| >= |right.title| then left.title else right.title,
      authors := if |left.authors| >= |right.authors| then left.authors else right.authors,
      abstractText := LongerAbstract(left.abstractText, right.abstractText),
      year := Prefer(left.year, right.year),
      doi := PreferText(left.doi, right.doi),
      arxiv := PreferText(left.arxiv, right.arxiv),
      venue := PreferText(left.venue, right.venue),
      cited := MostCited(left.cited, right.cited),
      openAccess := if left.openAccess == Some(true) || right.openAccess == Some(true) then Some(true)
      else Prefer(left.openAccess, right.openAccess),
      url := PreferText(left.url, right.url),
      externalIds := right.externalIds + left.externalIds,
      sources := SortedSet(left.sources + right.sources),
      score := Prefer(left.score, right.score))
  }

  // ----- sorted sets are canonical -----

  ghost predicate Ascending(xs: seq<string>) {
    forall i, k :: 0 <= i < k < |xs| ==> Ordering.StringLess(xs[i], xs[k])
  }

  lemma StringLessIsWeakOrder()
    ensures Ordering.WeakOrder(Ordering.StringLess)
  {
    forall a, b | Ordering.StringLess(a, b) ensures !Ordering.StringLess(b, a) {
      Ordering.StringLessTotal(a, b);
    }
    forall a, b, c | Ordering.StringLess(a, c) ensures Ordering.StringLess(a, b) || Ordering.StringLess(b, c) {
      Ordering.StringLessTotal(a, b);
      if Ordering.StringLess(b, a) { Ordering.StringLessTransitive(b, a, c); }
    }
  }

  lemma SortedSetIsExact(xs: seq<string>)
    ensures Ascending(SortedSet(xs))
    ensures forall x :: x in SortedSet(xs) <==> x in xs
  {
    var r, d := SortedSet(xs), Distinct(xs);
    DistinctIsExact(xs);
    StringLessIsWeakOrder();
    Ordering.SortKeeps(d, Ordering.StringLess);
    Ordering.SortOrders(d, Ordering.StringLess);
    forall x ensures x in r <==> x in d {
      assert x in r <==> x in multiset(r);
      assert x in d <==> x in multiset(d);
    }
    NoRepeatsIff(d);
    NoRepeatsIff(r);
    forall i, k | 0 <= i < k < |r| ensures Ordering.StringLess(r[i], r[k]) {
      Ordering.StringLessTotal(r[i], r[k]);
    }
  }

  lemma LastIsNew(xs: seq<string>, x: string)
    requires Ascending(xs) && xs != []
    ensures x in xs[..|xs| - 1] <==> x in xs && x != xs[|xs| - 1]
  {
    hide Ordering.StringLess;
    var n := |xs| - 1;
    assert xs == xs[..n] + [xs[n]];
    Ordering.StringLessTotal(xs[n], xs[n]);
    assert forall i :: 0 <= i < n ==> Ordering.StringLess(xs[i], xs[n]);
  }

  lemma {:induction false} AscendingIsUnique(xs: seq<string>, ys: seq<string>)
    requires Ascending(xs) && Ascending(ys) && forall x :: x in xs <==> x in ys
    ensures xs == ys
  {
    hide Ordering.StringLess;
    assert ys != [] ==> ys[0] in ys && ys[0] in xs;
    if xs != [] {
      assert xs[0] in ys;
      var m, n := |xs| - 1, |ys| - 1;
      LastIsGreatest(xs, ys[n]);
      LastIsGreatest(ys, xs[m]);
      Ordering.StringLessTotal(xs[m], ys[n]);
      assert ys[n] in xs && xs[m] in ys;
      assert xs[m] == ys[n];
      forall x ensures x in xs[..m] <==> x in ys[..n] {
        LastIsNew(xs, x);
        LastIsNew(ys, x);
      }
      AscendingIsUnique(xs[..m], ys[..n]);
      assert xs == xs[..m] + [xs[m]] && ys == ys[..n] + [ys[n]];
    }
  }

  lemma LastIsGreatest(xs: seq<string>, x: string)
    requires Ascending(xs) && xs != []
    ensures xs[|xs| - 1] in xs
    ensures x in xs ==> x == xs[|xs| - 1] || Ordering.StringLess(x, xs[|xs| - 1])
  {
    hide Ordering.StringLess;
  }

  lemma SortedSetsAgree(xs: seq<string>, ys: seq<string>)
    requires forall x :: x in xs <==> x in ys
    ensures SortedSet(xs) == SortedSet(ys)
  {
    SortedSetIsExact(xs);
    SortedSetIsExact(ys);
    AscendingIsUnique(SortedSet(xs), SortedSet(ys));
  }

  // ----- the merge is a semigroup that keeps keys -----

  lemma SourcesAssociative(a: seq<string>, b: seq<string>, c: seq<string>)
    ensures SortedSet(SortedSet(a + b) + c) == SortedSet(a + SortedSet(b + c))
  {
    hide SortedSet;
    SortedSetIsExact(a + b);
    SortedSetIsExact(b + c);
    SortedSetsAgree(SortedSet(a + b) + c, a + SortedSet(b + c));
  }

  lemma MergeAssociative(a: Paper, b: Paper, c: Paper)
    ensures Merge(Merge(a, b), c) == Merge(a, Merge(b, c))
  {
    hide SortedSet;
    SourcesAssociative(a.sources, b.sources, c.sources);
    assert (c.externalIds + (b.externalIds + a.externalIds)) == ((c.externalIds + b.externalIds) + a.externalIds);
  }

  lemma MergeKeepsKey(n: Normaliser, a: Paper, b: Paper)
    requires Key(n, a) == Key(n, b)
    ensures Key(n, Merge(a, b)) == Key(n, a)
  {
    hide SortedSet;
  }

  // ----- deduplication -----

  function Position(n: Normaliser, papers: seq<Paper>, key: PaperKey): (r: nat)
    ensures r <= |papers|
    ensures r < |papers| ==> Key(n, papers[r]) == key
    ensures forall i :: 0 <= i < r ==> Key(n, papers[i]) != key
  {
    if papers == [] then 0
    else
      var r := Position(n, papers[..|papers| - 1], key);
      if r < |papers| - 1 || Key(n, papers[|papers| - 1]) == key then r else |papers|
  }

  function Insert(n: Normaliser, papers: seq<Paper>, p: Paper): seq<Paper> {
    var at := Position(n, papers, Key(n, p));
    if at < |papers| then papers[at := Merge(papers[at], p)] else papers + [p]
  }

  function InsertAll(n: Normaliser, papers: seq<Paper>, more: seq<Paper>): seq<Paper> {
    if more == [] then papers else Insert(n, InsertAll(n, papers, more[..|more| - 1]), more[|more| - 1])
  }

  function Deduplicated(n: Normaliser, records: seq<Paper>): seq<Paper> {
    InsertAll(n, [], records)
  }

  ghost predicate Keyed(n: Normaliser, papers: seq<Paper>) {
    forall i, k :: 0 <= i < k < |papers| ==> Key(n, papers[i]) != Key(n, papers[k])
  }

  function Keys(n: Normaliser, papers: seq<Paper>): seq<PaperKey> {
    Map(papers, (p: Paper) => Key(n, p))
  }

  lemma InsertKeys(n: Normaliser, papers: seq<Paper>, p: Paper)
    ensures Keys(n, Insert(n, papers, p)) ==
            Keys(n, papers) + if Key(n, p) in Keys(n, papers) then [] else [Key(n, p)]
    ensures Keyed(n, papers) ==> Keyed(n, Insert(n, papers, p))
  {
    var at := Position(n, papers, Key(n, p));
    var keys := Keys(n, papers);
    if at < |papers| {
      MergeKeepsKey(n, papers[at], p);
      assert keys[at] == Key(n, p);
      hide Merge;
      assert Keys(n, Insert(n, papers, p)) == keys;
    } else {
      assert Key(n, p) !in keys;
    }
  }

  /** The keys of the result are the keys of the input, each once, in order of
      first appearance. */
  lemma {:induction false} KeysInFirstAppearance(n: Normaliser, records: seq<Paper>)
    ensures Keys(n, Deduplicated(n, records)) == Distinct(Keys(n, records))
    ensures Keyed(n, Deduplicated(n, records))
  {
    hide Insert, Key;
    if records != [] {
      var front, last := records[..|records| - 1], records[|records| - 1];
      KeysInFirstAppearance(n, front);
      InsertKeys(n, Deduplicated(n, front), last);
      DistinctIsExact(Keys(n, front));
      assert records == front + [last];
      assert Keys(n, records) == Keys(n, front) + [Key(n, last)];
      DistinctSnoc(Keys(n, front), Key(n, last));
    }
  }

  lemma {:induction false} InsertAllKeys(n: Normaliser, papers: seq<Paper>, more: seq<Paper>)
    requires Keyed(n, papers)
    ensures Keyed(n, InsertAll(n, papers, more))
    ensures forall key :: key in Keys(n, more) ==> key in Keys(n, InsertAll(n, papers, more))
  {
    hide Insert, Key, Keyed;
    if more != [] {
      var front, last := more[..|more| - 1], more[|more| - 1];
      InsertAllKeys(n, papers, front);
      InsertKeys(n, InsertAll(n, papers, front), last);
      assert Keys(n, more) == Keys(n, front) + [Key(n, last)];
    }
  }

  lemma {:induction false} InsertAllConcat(n: Normaliser, papers: seq<Paper>, a: seq<Paper>, b: seq<Paper>)
    ensures InsertAll(n, papers, a + b) == InsertAll(n, InsertAll(n, papers, a), b)
  {
    if b == [] {
      assert a + b == a;
    } else {
      assert (a + b)[..|a + b| - 1] == a + b[..|b| - 1];
      InsertAllConcat(n, papers, a, b[..|b| - 1]);
    }
  }

  /** A list with distinct keys is already deduplicated. */
  lemma {:induction false} KeyedIsFixed(n: Normaliser, papers: seq<Paper>)
    requires Keyed(n, papers)
    ensures Deduplicated(n, papers) == papers
  {
    if papers != [] {
      KeyedIsFixed(n, papers[..|papers| - 1]);
    }
  }

  lemma PositionIs(n: Normaliser, papers: seq<Paper>, at: nat)
    requires Keyed(n, papers) && at < |papers|
    ensures Position(n, papers, Key(n, papers[at])) == at
  {
    var p := Position(n, papers, Key(n, papers[at]));
    assert p <= at;
  }

  lemma InsertAt(n: Normaliser, papers: seq<Paper>, at: nat, p: Paper)
    requires Keyed(n, papers) && at < |papers| && Key(n, papers[at]) == Key(n, p)
    ensures Insert(n, papers, p) == papers[at := Merge(papers[at], p)]
    ensures Key(n, Merge(papers[at], p)) == Key(n, p)
    ensures Keyed(n, Insert(n, papers, p))
  {
    PositionIs(n, papers, at);
    MergeKeepsKey(n, papers[at], p);
    InsertKeys(n, papers, p);
  }

  lemma InsertNew(n: Normaliser, papers: seq<Paper>, p: Paper)
    requires forall i :: 0 <= i < |papers| ==> Key(n, papers[i]) != Key(n, p)
    ensures Insert(n, papers, p) == papers + [p]
  {
  }

  /** Inserting twice under one key is inserting the merge. */
  lemma InsertTwice(n: Normaliser, papers: seq<Paper>, a: Paper, b: Paper)
    requires Keyed(n, papers) && Key(n, a) == Key(n, b)
    ensures Insert(n, Insert(n, papers, a), b) == Insert(n, papers, Merge(a, b))
  {
    hide *;
    var at := Position(n, papers, Key(n, a));
    MergeKeepsKey(n, a, b);
    InsertKeys(n, papers, a);
    if at < |papers| {
      InsertAt(n, papers, at, a);
      InsertAt(n, papers, at, Merge(a, b));
      InsertAt(n, Insert(n, papers, a), at, b);
      MergeAssociative(papers[at], a, b);
    } else {
      InsertNew(n, papers, a);
      InsertNew(n, papers, Merge(a, b));
      InsertAt(n, papers + [a], |papers|, b);
    }
  }

  /** Insertions under different keys commute once the first key is present. */
  lemma InsertsCommute(n: Normaliser, papers: seq<Paper>, a: Paper, b: Paper)
    requires Keyed(n, papers) && Key(n, a) != Key(n, b) && Key(n, a) in Keys(n, papers)
    ensures Insert(n, Insert(n, papers, a), b) == Insert(n, Insert(n, papers, b), a)
  {
    hide Merge, Key, Insert, Position;
    var i :| 0 <= i < |papers| && Keys(n, papers)[i] == Key(n, a);
    var k := Position(n, papers, Key(n, b));
    InsertAt(n, papers, i, a);
    var withA := Insert(n, papers, a);
    if k < |papers| {
      InsertAt(n, papers, k, b);
      InsertAt(n, withA, k, b);
      InsertAt(n, Insert(n, papers, b), i, a);
    } else {
      InsertNew(n, papers, b);
      InsertNew(n, withA, b);
      assert Keyed(n, papers + [b]);
      InsertAt(n, papers + [b], i, a);
    }
  }

  lemma {:induction false} InsertAllInsert(n: Normaliser, papers: seq<Paper>, more: seq<Paper>, p: Paper)
    requires Keyed(n, papers) && Keyed(n, more)
    ensures InsertAll(n, papers, Insert(n, more, p)) == Insert(n, InsertAll(n, papers, more), p)
  {
    hide Merge, Key, Insert, Position;
    var at := Position(n, more, Key(n, p));
    if at == |more| {
      InsertNew(n, more, p);
      assert (more + [p])[..|more|] == more;
    } else {
      InsertAt(n, more, at, p);
      var m := |more| - 1;
      var front, last := more[..m], more[m];
      var before := InsertAll(n, papers, front);
      InsertAllKeys(n, papers, front);
      if at == m {
        assert more[m := Merge(last, p)][..m] == front;
        InsertTwice(n, before, last, p);
      } else {
        InsertAt(n, front, at, p);
        assert more[at := Merge(more[at], p)][..m] == Insert(n, front, p);
        InsertAllInsert(n, papers, front, p);
        assert Keys(n, front)[at] == Key(n, p);
        assert Key(n, last) != Key(n, p);
        InsertsCommute(n, before, p, last);
      }
    }
  }

  lemma {:induction false} InsertAllDeduplicated(n: Normaliser, papers: seq<Paper>, more: seq<Paper>)
    requires Keyed(n, papers)
    ensures InsertAll(n, papers, Deduplicated(n, more)) == InsertAll(n, papers, more)
  {
    if more != [] {
      var front := more[..|more| - 1];
      InsertAllDeduplicated(n, papers, front);
      KeysInFirstAppearance(n, front);
      InsertAllInsert(n, papers, Deduplicated(n, front), more[|more| - 1]);
    }
  }

  /** Deduplicating batches first changes nothing. */
  lemma BatchingIsInvisible(n: Normaliser, xs: seq<Paper>, ys: seq<Paper>)
    ensures Deduplicated(n, Deduplicated(n, xs) + Deduplicated(n, ys)) == Deduplicated(n, xs + ys)
  {
    var dx := Deduplicated(n, xs);
    KeysInFirstAppearance(n, xs);
    InsertAllConcat(n, [], dx, Deduplicated(n, ys));
    KeyedIsFixed(n, dx);
    InsertAllDeduplicated(n, dx, ys);
    InsertAllConcat(n, [], xs, ys);
  }

  /** All records of one key, merged from the left. */
  function MergeAll(papers: seq<Paper>): Paper
    requires papers != []
  {
    if |papers| == 1 then papers[0] else Merge(MergeAll(papers[..|papers| - 1]), papers[|papers| - 1])
  }

  function Bucket(n: Normaliser, records: seq<Paper>, key: PaperKey): seq<Paper> {
    Filter(records, (p: Paper) => Key(n, p) == key)
  }

  /** Each result is the merge, in input order, of the records with its key. */
  lemma {:induction false} ResultsAreBuckets(n: Normaliser, records: seq<Paper>, at: nat)
    requires at < |Deduplicated(n, records)|
    ensures var p := Deduplicated(n, records)[at];
            Bucket(n, records, Key(n, p)) != [] && p == MergeAll(Bucket(n, records, Key(n, p)))
  {
    hide Merge, Key, Insert, Position, Filter;
    var front, last := records[..|records| - 1], records[|records| - 1];
    var before, result := Deduplicated(n, front), Deduplicated(n, records);
    KeysInFirstAppearance(n, front);
    assert records == front + [last];
    DeduplicatedSnoc(n, front, last);
    var key := Key(n, last);
    if i: nat :| i < |before| && Key(n, before[i]) == key {
      InsertAt(n, before, i, last);
      BucketSnoc(n, front, last, Key(n, result[at]));
      ResultsAreBuckets(n, front, at);
      if at == i { MergeAllSnoc(Bucket(n, front, key), last); }
    } else {
      InsertNew(n, before, last);
      BucketSnoc(n, front, last, Key(n, result[at]));
      if at < |before| {
        ResultsAreBuckets(n, front, at);
      } else {
        EmptyBucket(n, front, key);
      }
    }
  }

  lemma BucketSnoc(n: Normaliser, records: seq<Paper>, p: Paper, key: PaperKey)
    ensures Bucket(n, records + [p], key) == Bucket(n, records, key) + if Key(n, p) == key then [p] else []
    ensures Bucket(n, records, key) + [] == Bucket(n, records, key)
  {
    FilterSnoc(records, p, (q: Paper) => Key(n, q) == key);
  }

  lemma MergeAllSnoc(papers: seq<Paper>, p: Paper)
    requires papers != []
    ensures MergeAll(papers + [p]) == Merge(MergeAll(papers), p)
  {
    assert (papers + [p])[..|papers|] == papers;
  }

  lemma EmptyBucket(n: Normaliser, records: seq<Paper>, key: PaperKey)
    ensures (forall i :: 0 <= i < |Deduplicated(n, records)| ==> Key(n, Deduplicated(n, records)[i]) != key)
            ==> Bucket(n, records, key) == []
  {
    var result := Deduplicated(n, records);
    KeysInFirstAppearance(n, records);
    DistinctIsExact(Keys(n, records));
    FilterMembers(records, (p: Paper) => Key(n, p) == key);
    var bucket := Bucket(n, records, key);
    if bucket != [] {
      assert bucket[0] in bucket;
      var i :| 0 <= i < |records| && records[i] == bucket[0];
      assert Keys(n, records)[i] == key;
      assert key in Keys(n, result);
      var k :| 0 <= k < |result| && Keys(n, result)[k] == key;
      assert Key(n, result[k]) == key;
    }
  }

  lemma NothingDeduplicated(n: Normaliser)
    ensures Deduplicated(n, []) == [] && Keys(n, []) == []
  {
  }

  lemma DeduplicatedSnoc(n: Normaliser, records: seq<Paper>, p: Paper)
    ensures Deduplicated(n, records + [p]) == Insert(n, Deduplicated(n, records), p)
  {
    assert (records + [p])[..|records|] == records;
  }

  lemma KeysAre(n: Normaliser, papers: seq<Paper>)
    ensures |Keys(n, papers)| == |papers|
    ensures forall k :: 0 <= k < |papers| ==> Keys(n, papers)[k] == Key(n, papers[k])
  {
  }

  lemma KeyedAt(n: Normaliser, papers: seq<Paper>)
    requires Keyed(n, papers)
    ensures forall i, k :: 0 <= i < k < |papers| ==> Key(n, papers[i]) != Key(n, papers[k])
  {
  }

  method DeduplicatePapers(n: Normaliser, records: seq<Paper>) returns (papers: seq<Paper>)
    ensures papers == Deduplicated(n, records)
  {
    hide *;
    var merged: map<PaperKey, Paper> := map[];
    NothingDeduplicated(n);
    assert records[..0] == [];
    var order: seq<PaperKey> := [];
    for i := 0 to |records|
      invariant order == Keys(n, Deduplicated(n, records[..i]))
      invariant forall key :: key in merged <==> key in order
      invariant |order| == |Deduplicated(n, records[..i])|
      invariant forall k :: 0 <= k < |order| ==> merged[order[k]] == Deduplicated(n, records[..i])[k]
    {
      var record, before := records[i], Deduplicated(n, records[..i]);
      var key := Key(n, record);
      KeysInFirstAppearance(n, records[..i]);
      DeduplicatedSnoc(n, records[..i], record);
      assert records[..i + 1] == records[..i] + [record];
      KeysAre(n, before);
      if key !in merged {
        assert forall k :: 0 <= k < |before| ==> order[k] != key;
        InsertNew(n, before, record);
        merged := merged[key := record];
        order := order + [key];
      } else {
        ghost var at :| 0 <= at < |order| && order[at] == key;
        KeyedAt(n, before);
        InsertAt(n, before, at, record);
        merged := merged[key := Merge(merged[key], record)];
      }
      KeysAre(n, Deduplicated(n, records[..i + 1]));
    }
    assert records[..|records|] == records;
    KeysAre(n, Deduplicated(n, records));
    papers := [];
    for k := 0 to |order|
      invariant papers == Deduplicated(n, records)[..k]
    {
      papers := papers + [merged[order[k]]];
    }
  }

  // ----- interleaving providers -----

  function Round(lists: seq<seq<Paper>>, index: nat): seq<Paper> {
    if lists == [] then []
    else
      var items := lists[|lists| - 1];
      Round(lists[..|lists| - 1], index) + if index < |items| then [items[index]] else []
  }

  function Rounds(lists: seq<seq<Paper>>, count: nat): seq<Paper> {
    if count == 0 then [] else Rounds(lists, count - 1) + Round(lists, count - 1)
  }

  function Longest(lists: seq<seq<Paper>>): (r: nat)
    ensures forall items :: items in lists ==> |items| <= r
  {
    if lists == [] then 0
    else
      assert lists == lists[..|lists| - 1] + [lists[|lists| - 1]];
      var rest := Longest(lists[..|lists| - 1]);
      if |lists[|lists| - 1]| > rest then |lists[|lists| - 1]| else rest
  }

  ghost function FirstOf(lists: seq<seq<Paper>>, count: nat): multiset<Paper> {
    if lists == [] then multiset{}
    else
      var items := lists[|lists| - 1];
      FirstOf(lists[..|lists| - 1], count) + multiset(FirstFew(items, count))
  }

  function FirstFew(items: seq<Paper>, count: nat): seq<Paper> {
    if count < |items| then items[..count] else items
  }

  lemma {:induction false} RoundAdds(lists: seq<seq<Paper>>, index: nat)
    ensures FirstOf(lists, index + 1) == FirstOf(lists, index) + multiset(Round(lists, index))
  {
    if lists != [] {
      hide FirstFew;
      var items, rest := lists[|lists| - 1], lists[..|lists| - 1];
      RoundAdds(rest, index);
      FirstFewAdds(items, index);
      var own := if index < |items| then [items[index]] else [];
      assert multiset(Round(rest, index) + own) == multiset(Round(rest, index)) + multiset(own);
    }
  }

  lemma FirstFewAdds(items: seq<Paper>, index: nat)
    ensures multiset(FirstFew(items, index + 1)) ==
            multiset(FirstFew(items, index)) + multiset(if index < |items| then [items[index]] else [])
  {
    if index < |items| {
      assert FirstFew(items, index + 1) == FirstFew(items, index) + [items[index]];
    }
  }

  lemma {:induction false} FirstOfNone(lists: seq<seq<Paper>>)
    ensures FirstOf(lists, 0) == multiset{}
  {
    if lists != [] { FirstOfNone(lists[..|lists| - 1]); }
  }

  /** After `count` rounds the output holds exactly the first `count` records of
      every provider. */
  lemma {:induction false} RoundsHoldFirsts(lists: seq<seq<Paper>>, count: nat)
    ensures multiset(Rounds(lists, count)) == FirstOf(lists, count)
  {
    hide *;
    if count == 0 {
      FirstOfNone(lists);
      NoRounds(lists);
    } else {
      RoundsHoldFirsts(lists, count - 1);
      RoundAdds(lists, count - 1);
      RoundsSnoc(lists, count - 1);
    }
  }

  ghost function AllOf(lists: seq<seq<Paper>>): multiset<Paper> {
    if lists == [] then multiset{} else AllOf(lists[..|lists| - 1]) + multiset(lists[|lists| - 1])
  }

  lemma {:induction false} FirstOfEnough(lists: seq<seq<Paper>>, count: nat)
    requires forall items :: items in lists ==> |items| <= count
    ensures FirstOf(lists, count) == AllOf(lists)
  {
    if lists != [] { FirstOfEnough(lists[..|lists| - 1], count); }
  }

  lemma RoundsSnoc(lists: seq<seq<Paper>>, index: nat)
    ensures Rounds(lists, index + 1) == Rounds(lists, index) + Round(lists, index)
  {
  }

  lemma NoRounds(lists: seq<seq<Paper>>)
    ensures Rounds(lists, 0) == []
  {
  }

  method TakeRound(lists: seq<seq<Paper>>, index: nat) returns (row: seq<Paper>)
    ensures row == Round(lists, index)
  {
    row := [];
    for k := 0 to |lists|
      invariant row == Round(lists[..k], index)
    {
      assert lists[..k + 1][..k] == lists[..k];
      if index < |lists[k]| { row := row + [lists[k][index]]; }
    }
    assert lists[..|lists|] == lists;
  }

  method Interleave(lists: seq<seq<Paper>>) returns (records: seq<Paper>)
    ensures records == Rounds(lists, Longest(lists))
    ensures multiset(records) == AllOf(lists)
  {
    hide Rounds, Round, FirstOf, AllOf, Longest;
    records := [];
    var longest := Longest(lists);
    NoRounds(lists);
    for index := 0 to longest
      invariant records == Rounds(lists, index)
    {
      var row := TakeRound(lists, index);
      records := records + row;
      RoundsSnoc(lists, index);
    }
    RoundsHoldFirsts(lists, longest);
    FirstOfEnough(lists, longest);
  }
}
