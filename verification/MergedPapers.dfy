/** What a deduplicated record holds, field by field, in terms of the records it
    was merged from. */
module MergedPapers {
  import opened Wrappers
  import opened Sequences
  import opened PaperMerge

  // ----- one field of several records -----

  /** `t` is the earliest of the longest. */
  ghost predicate Longest<T(!new)>(t: seq<T>, xs: seq<seq<T>>) {
    exists i :: 0 <= i < |xs| && xs[i] == t
                && (forall k :: 0 <= k < |xs| ==> |xs[k]| <= |t|) && forall k :: 0 <= k < i ==> |xs[k]| < |t|
  }

  lemma LongestSnoc<T(!new)>(t: seq<T>, xs: seq<seq<T>>, x: seq<T>)
    requires Longest(t, xs)
    ensures Longest(if |t| >= |x| then t else x, xs + [x])
  {
    var i :| 0 <= i < |xs| && xs[i] == t
             && (forall k :: 0 <= k < |xs| ==> |xs[k]| <= |t|) && forall k :: 0 <= k < i ==> |xs[k]| < |t|;
    var all := xs + [x];
    assert all[i] == t && all[|xs|] == x;
  }

  ghost predicate FirstSome<T(!new)>(v: Option<T>, xs: seq<Option<T>>) {
    || (v == None && forall k :: 0 <= k < |xs| ==> xs[k] == None)
    || (v.Some? && exists i :: 0 <= i < |xs| && xs[i] == v && forall k :: 0 <= k < i ==> xs[k] == None)
  }

  lemma FirstSomeSnoc<T(!new)>(v: Option<T>, xs: seq<Option<T>>, x: Option<T>)
    requires FirstSome(v, xs)
    ensures FirstSome(if v.Some? then v else x, xs + [x])
  {
    var all := xs + [x];
    assert all[|xs|] == x;
    if v.Some? {
      var i :| 0 <= i < |xs| && xs[i] == v && forall k :: 0 <= k < i ==> xs[k] == None;
      assert all[i] == v;
    }
  }

  predicate Missing(x: Option<string>) {
    x == None || x == Some("")
  }

  /** The first text that is not missing, if there is one. */
  ghost predicate FirstText(v: Option<string>, xs: seq<Option<string>>) {
    if Missing(v) then forall k :: 0 <= k < |xs| ==> Missing(xs[k])
    else exists i :: 0 <= i < |xs| && xs[i] == v && forall k :: 0 <= k < i ==> Missing(xs[k])
  }

  lemma FirstTextSnoc(v: Option<string>, xs: seq<Option<string>>, x: Option<string>)
    requires FirstText(v, xs)
    ensures FirstText(if Missing(v) then x else v, xs + [x])
  {
    var all := xs + [x];
    assert all[|xs|] == x;
    if !Missing(v) {
      var i :| 0 <= i < |xs| && xs[i] == v && forall k :: 0 <= k < i ==> Missing(xs[k]);
      assert all[i] == v;
    }
  }

  function Length(x: Option<string>): nat {
    if x.Some? then |x.value| else 0
  }

  /** The earliest of the longest texts, if one is not missing. */
  ghost predicate LongestText(v: Option<string>, xs: seq<Option<string>>) {
    if Missing(v) then forall k :: 0 <= k < |xs| ==> Missing(xs[k])
    else exists i :: 0 <= i < |xs| && xs[i] == v
                     && (forall k :: 0 <= k < |xs| ==> Length(xs[k]) <= Length(v))
                     && forall k :: 0 <= k < i ==> Length(xs[k]) < Length(v)
  }

  lemma LongestTextSnoc(v: Option<string>, xs: seq<Option<string>>, x: Option<string>)
    requires LongestText(v, xs)
    ensures LongestText(if Length(x) > Length(v) then x else v, xs + [x])
  {
    var all := xs + [x];
    assert all[|xs|] == x;
    if !Missing(v) {
      var i :| 0 <= i < |xs| && xs[i] == v
               && (forall k :: 0 <= k < |xs| ==> Length(xs[k]) <= Length(v))
               && forall k :: 0 <= k < i ==> Length(xs[k]) < Length(v);
      assert all[i] == v;
    }
  }

  ghost predicate Greatest(v: Option<int>, xs: seq<Option<int>>) {
    || (v == None && forall x :: x in xs ==> x == None)
    || (v.Some? && v in xs && forall x :: x in xs && x.Some? ==> x.value <= v.value)
  }

  predicate AnyTrue(v: Option<bool>, xs: seq<Option<bool>>) {
    && (v == Some(true) <==> Some(true) in xs)
    && (v == None <==> Some(true) !in xs && Some(false) !in xs)
  }

  // ----- the merge of several records -----

  function TitlesOf(b: seq<Paper>): seq<string> { Map(b, (p: Paper) => p.title) }
  function AuthorsOf(b: seq<Paper>): seq<seq<string>> { Map(b, (p: Paper) => p.authors) }
  function AbstractsOf(b: seq<Paper>): seq<Option<string>> { Map(b, (p: Paper) => p.abstractText) }
  function YearsOf(b: seq<Paper>): seq<Option<int>> { Map(b, (p: Paper) => p.year) }
  function ScoresOf(b: seq<Paper>): seq<Option<real>> { Map(b, (p: Paper) => p.score) }
  function DoisOf(b: seq<Paper>): seq<Option<string>> { Map(b, (p: Paper) => p.doi) }
  function ArxivsOf(b: seq<Paper>): seq<Option<string>> { Map(b, (p: Paper) => p.arxiv) }
  function VenuesOf(b: seq<Paper>): seq<Option<string>> { Map(b, (p: Paper) => p.venue) }
  function UrlsOf(b: seq<Paper>): seq<Option<string>> { Map(b, (p: Paper) => p.url) }
  function CitedOf(b: seq<Paper>): seq<Option<int>> { Map(b, (p: Paper) => p.cited) }
  function AccessOf(b: seq<Paper>): seq<Option<bool>> { Map(b, (p: Paper) => p.openAccess) }

  lemma FieldsSnoc(b: seq<Paper>, p: Paper)
    ensures TitlesOf(b + [p]) == TitlesOf(b) + [p.title] && AuthorsOf(b + [p]) == AuthorsOf(b) + [p.authors]
    ensures AbstractsOf(b + [p]) == AbstractsOf(b) + [p.abstractText] && YearsOf(b + [p]) == YearsOf(b) + [p.year]
    ensures ScoresOf(b + [p]) == ScoresOf(b) + [p.score] && DoisOf(b + [p]) == DoisOf(b) + [p.doi]
    ensures ArxivsOf(b + [p]) == ArxivsOf(b) + [p.arxiv] && VenuesOf(b + [p]) == VenuesOf(b) + [p.venue]
    ensures UrlsOf(b + [p]) == UrlsOf(b) + [p.url] && CitedOf(b + [p]) == CitedOf(b) + [p.cited]
    ensures AccessOf(b + [p]) == AccessOf(b) + [p.openAccess]
  {
  }

  /** The longest title, list of authors and abstract, the earliest of equals. */
  ghost predicate LongestFields(p: Paper, b: seq<Paper>) {
    && Longest(p.title, TitlesOf(b)) && Longest(p.authors, AuthorsOf(b)) && LongestText(p.abstractText, AbstractsOf(b))
  }

  /** The first value known of what records do not disagree about. */
  ghost predicate FirstFields(p: Paper, b: seq<Paper>) {
    && FirstSome(p.year, YearsOf(b)) && FirstSome(p.score, ScoresOf(b))
    && FirstText(p.doi, DoisOf(b)) && FirstText(p.arxiv, ArxivsOf(b))
    && FirstText(p.venue, VenuesOf(b)) && FirstText(p.url, UrlsOf(b))
  }

  /** Every name a record has, with the value of the first record that has it. */
  ghost predicate FirstNames(ids: map<string, string>, b: seq<Paper>) {
    && (forall name :: name in ids <==> Named(name, b))
    && forall name :: name in ids ==> exists i: nat :: FirstAt(name, ids[name], b, i)
  }

  /** Every source once, in code point order; a record alone keeps its list. */
  ghost predicate AllSources(sources: seq<string>, b: seq<Paper>) {
    && (forall x :: x in sources <==> exists k :: 0 <= k < |b| && x in b[k].sources)
    && (|b| > 1 ==> Ascending(sources))
  }

  ghost predicate MergeOf(p: Paper, b: seq<Paper>) {
    && LongestFields(p, b) && FirstFields(p, b)
    && Greatest(p.cited, CitedOf(b)) && AnyTrue(p.openAccess, AccessOf(b))
    && FirstNames(p.externalIds, b) && AllSources(p.sources, b)
  }

  /** `name` first appears at position `i`, with the value `value`. */
  predicate FirstAt(name: string, value: string, b: seq<Paper>, i: nat) {
    && i < |b| && name in b[i].externalIds && b[i].externalIds[name] == value
    && forall k :: 0 <= k < i ==> name !in b[k].externalIds
  }

  predicate Named(name: string, b: seq<Paper>) {
    exists k :: 0 <= k < |b| && name in b[k].externalIds
  }

  lemma NamedSnoc(name: string, b: seq<Paper>, p: Paper)
    ensures Named(name, b + [p]) <==> Named(name, b) || name in p.externalIds
  {
    var all := b + [p];
    assert all[|b|] == p && forall k :: 0 <= k < |b| ==> all[k] == b[k];
    if Named(name, b) {
      var k :| 0 <= k < |b| && name in b[k].externalIds;
      assert name in all[k].externalIds;
    }
  }

  lemma FirstAtSnoc(name: string, value: string, b: seq<Paper>, i: nat, p: Paper)
    requires FirstAt(name, value, b, i) || (i == |b| && !Named(name, b) && name in p.externalIds && p.externalIds[name] == value)
    ensures FirstAt(name, value, b + [p], i)
  {
    assert (b + [p])[|b|] == p && forall k :: 0 <= k < |b| ==> (b + [p])[k] == b[k];
  }

  lemma NamesSnoc(ids: map<string, string>, b: seq<Paper>, p: Paper)
    requires FirstNames(ids, b)
    ensures FirstNames(p.externalIds + ids, b + [p])
  {
    hide Named, FirstAt;
    var both := p.externalIds + ids;
    forall name ensures name in both <==> Named(name, b + [p]) { NamedSnoc(name, b, p); }
    forall name | name in both ensures exists i: nat :: FirstAt(name, both[name], b + [p], i) {
      if name in ids {
        var i: nat :| FirstAt(name, ids[name], b, i);
        FirstAtSnoc(name, ids[name], b, i, p);
        assert both[name] == ids[name];
      } else {
        FirstAtSnoc(name, p.externalIds[name], b, |b|, p);
        assert both[name] == p.externalIds[name];
      }
    }
  }

  lemma SourcesSnoc(sources: seq<string>, b: seq<Paper>, p: Paper)
    requires AllSources(sources, b)
    ensures AllSources(SortedSet(sources + p.sources), b + [p])
  {
    hide SortedSet;
    var all := b + [p];
    SortedSetIsExact(sources + p.sources);
    assert all[|b|] == p;
    forall x | x in sources ensures exists k :: 0 <= k < |all| && x in all[k].sources {
      var k :| 0 <= k < |b| && x in b[k].sources;
      assert all[k] == b[k];
    }
  }

  lemma MergeIs(a: Paper, b: Paper)
    ensures var p := Merge(a, b);
            && p.title == (if |a.title| >= |b.title| then a.title else b.title)
            && p.authors == (if |a.authors| >= |b.authors| then a.authors else b.authors)
            && (p.abstractText == if Length(b.abstractText) > Length(a.abstractText) then b.abstractText else a.abstractText)
            && p.year == (if a.year.Some? then a.year else b.year) && p.score == (if a.score.Some? then a.score else b.score)
            && p.doi == (if Missing(a.doi) then b.doi else a.doi) && p.arxiv == (if Missing(a.arxiv) then b.arxiv else a.arxiv)
            && p.venue == (if Missing(a.venue) then b.venue else a.venue) && p.url == (if Missing(a.url) then b.url else a.url)
            && p.externalIds == b.externalIds + a.externalIds && p.sources == SortedSet(a.sources + b.sources)
  {
    hide SortedSet;
  }

  lemma MergeCounts(a: Paper, b: Paper, xs: seq<Option<int>>, ys: seq<Option<bool>>)
    requires Greatest(a.cited, xs) && AnyTrue(a.openAccess, ys)
    ensures Greatest(Merge(a, b).cited, xs + [b.cited]) && AnyTrue(Merge(a, b).openAccess, ys + [b.openAccess])
  {
    hide SortedSet;
    Truth(a.openAccess);
    Truth(b.openAccess);
  }

  lemma MergeOfSnoc(p: Paper, b: seq<Paper>, x: Paper)
    requires MergeOf(p, b)
    ensures MergeOf(Merge(p, x), b + [x])
  {
    hide *;
    MergeOfIs(p, b);
    FieldsSnoc(b, x);
    MergeIs(p, x);
    LongestSnoc(p.title, TitlesOf(b), x.title);
    LongestSnoc(p.authors, AuthorsOf(b), x.authors);
    LongestTextSnoc(p.abstractText, AbstractsOf(b), x.abstractText);
    FirstSomeSnoc(p.year, YearsOf(b), x.year);
    FirstSomeSnoc(p.score, ScoresOf(b), x.score);
    FirstTextSnoc(p.doi, DoisOf(b), x.doi);
    FirstTextSnoc(p.arxiv, ArxivsOf(b), x.arxiv);
    FirstTextSnoc(p.venue, VenuesOf(b), x.venue);
    FirstTextSnoc(p.url, UrlsOf(b), x.url);
    MergeCounts(p, x, CitedOf(b), AccessOf(b));
    NamesSnoc(p.externalIds, b, x);
    SourcesSnoc(p.sources, b, x);
    MergeOfIs(Merge(p, x), b + [x]);
  }

  lemma MergeOfIs(p: Paper, b: seq<Paper>)
    ensures MergeOf(p, b) <==>
              && Longest(p.title, TitlesOf(b)) && Longest(p.authors, AuthorsOf(b)) && LongestText(p.abstractText, AbstractsOf(b))
              && FirstSome(p.year, YearsOf(b)) && FirstSome(p.score, ScoresOf(b))
              && FirstText(p.doi, DoisOf(b)) && FirstText(p.arxiv, ArxivsOf(b))
              && FirstText(p.venue, VenuesOf(b)) && FirstText(p.url, UrlsOf(b))
              && Greatest(p.cited, CitedOf(b)) && AnyTrue(p.openAccess, AccessOf(b))
              && FirstNames(p.externalIds, b) && AllSources(p.sources, b)
  {
  }

  lemma OneText(t: Option<string>)
    ensures FirstText(t, [t]) && LongestText(t, [t])
  {
    assert [t][0] == t;
  }

  lemma OneSome<T(!new)>(v: Option<T>)
    ensures FirstSome(v, [v])
  {
    assert [v][0] == v;
  }

  lemma OneLongest<T(!new)>(t: seq<T>)
    ensures Longest(t, [t])
  {
    assert [t][0] == t;
  }

  lemma Truth(v: Option<bool>)
    ensures v == None || v == Some(true) || v == Some(false)
  {
    match v
    case None =>
    case Some(true) =>
    case Some(false) =>
  }

  lemma OneCount(cited: Option<int>, access: Option<bool>)
    ensures Greatest(cited, [cited]) && AnyTrue(access, [access])
  {
    Truth(access);
  }

  lemma OneRecord(p: Paper)
    ensures FirstNames(p.externalIds, [p]) && AllSources(p.sources, [p])
  {
    assert [p][0] == p;
    assert forall name :: name in p.externalIds ==> FirstAt(name, p.externalIds[name], [p], 0);
  }

  lemma OneFields(p: Paper)
    ensures TitlesOf([p]) == [p.title] && AuthorsOf([p]) == [p.authors] && AbstractsOf([p]) == [p.abstractText]
    ensures YearsOf([p]) == [p.year] && ScoresOf([p]) == [p.score] && DoisOf([p]) == [p.doi]
    ensures ArxivsOf([p]) == [p.arxiv] && VenuesOf([p]) == [p.venue] && UrlsOf([p]) == [p.url]
    ensures CitedOf([p]) == [p.cited] && AccessOf([p]) == [p.openAccess]
  {
  }

  lemma MergeOfOne(p: Paper)
    ensures MergeOf(p, [p])
  {
    hide *;
    OneFields(p);
    OneLongest(p.title);
    OneLongest(p.authors);
    OneText(p.abstractText);
    OneText(p.doi);
    OneText(p.arxiv);
    OneText(p.venue);
    OneText(p.url);
    OneSome(p.year);
    OneSome(p.score);
    OneCount(p.cited, p.openAccess);
    OneRecord(p);
    MergeOfIs(p, [p]);
  }

  lemma {:induction false} MergeAllIs(b: seq<Paper>)
    requires b != []
    ensures MergeOf(MergeAll(b), b)
  {
    hide Merge, MergeOf;
    if |b| == 1 {
      MergeOfOne(b[0]);
      assert b == [b[0]];
    } else {
      var front, last := b[..|b| - 1], b[|b| - 1];
      MergeAllIs(front);
      MergeOfSnoc(MergeAll(front), front, last);
      assert b == front + [last];
    }
  }

  /** Two records are the same paper if they agree on the DOI; without a DOI in
      either, on the arXiv id; with neither in either, on the title. */
  lemma SameKeyIff(n: Normaliser, a: Paper, b: Paper)
    ensures Key(n, a) == Key(n, b) <==>
              if !Missing(a.doi) || !Missing(b.doi) then
                !Missing(a.doi) && !Missing(b.doi) && n.doi(a.doi.value) == n.doi(b.doi.value)
              else if !Missing(a.arxiv) || !Missing(b.arxiv) then
                !Missing(a.arxiv) && !Missing(b.arxiv) && n.fold(a.arxiv.value) == n.fold(b.arxiv.value)
              else n.title(a.title) == n.title(b.title)
  {
  }

  /** Every record of a deduplicated list is the merge, field by field, of all the
      input records that are the same paper. */
  lemma ResultsAreMerged(n: Normaliser, records: seq<Paper>, at: nat)
    requires at < |Deduplicated(n, records)|
    ensures var p := Deduplicated(n, records)[at];
            MergeOf(p, Filter(records, (x: Paper) => Key(n, x) == Key(n, p)))
  {
    hide MergeOf, Key, Merge, Filter, Deduplicated, MergeAll;
    ResultsAreBuckets(n, records, at);
    var p := Deduplicated(n, records)[at];
    MergeAllIs(Bucket(n, records, Key(n, p)));
    SameFilter(n, records, p);
  }

  lemma SameFilter(n: Normaliser, records: seq<Paper>, p: Paper)
    ensures Bucket(n, records, Key(n, p)) == Filter(records, (x: Paper) => Key(n, x) == Key(n, p))
  {
    FiltersAgree(records, (q: Paper) => Key(n, q) == Key(n, p), (x: Paper) => Key(n, x) == Key(n, p));
  }

  lemma {:induction false} FiltersAgree<T(!new)>(xs: seq<T>, p: T -> bool, q: T -> bool)
    requires forall x :: p(x) == q(x)
    ensures Filter(xs, p) == Filter(xs, q)
  {
    if xs != [] { FiltersAgree(xs[..|xs| - 1], p, q); }
  }
}
