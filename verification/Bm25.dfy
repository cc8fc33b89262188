/** The BM25 inverted index agrees with counting terms document by document. */
module Bm25 {
  import opened Tokenization

  datatype Posting = Posting(document: nat, frequency: nat)

  datatype Index = Index(postings: map<string, seq<Posting>>, lengths: seq<nat>, average: real)

  function Occurrences(tokens: seq<string>, term: string): nat {
    if tokens == [] then 0
    else Occurrences(tokens[..|tokens| - 1], term) + if tokens[|tokens| - 1] == term then 1 else 0
  }

  /** The naive posting list: every document that has the term, in order. */
  function Naive(documents: seq<seq<string>>, term: string): seq<Posting> {
    if documents == [] then []
    else
      var n := |documents| - 1;
      var f := Occurrences(documents[n], term);
      Naive(documents[..n], term) + if f > 0 then [Posting(n, f)] else []
  }

  predicate Increasing(list: seq<Posting>) {
    forall i, k :: 0 <= i < k < |list| ==> list[i].document < list[k].document
  }

  /** What "naive" means: one posting for exactly the documents that contain the
      term, in increasing order, with the true frequency. */
  lemma {:induction false} NaiveIsExact(documents: seq<seq<string>>, term: string)
    ensures forall p :: p in Naive(documents, term) <==>
              p.document < |documents| && p.frequency == Occurrences(documents[p.document], term) && p.frequency > 0
    ensures Increasing(Naive(documents, term))
  {
    if documents != [] {
      var n := |documents| - 1;
      NaiveIsExact(documents[..n], term);
      var r := Naive(documents[..n], term);
      forall i | 0 <= i < |r| ensures r[i].document < n { assert r[i] in r; }
      var full := Naive(documents, term);
      assert full == r || (|full| == |r| + 1 && full[..|r|] == r && full[|r|].document == n);
      forall i, k | 0 <= i < k < |full| ensures full[i].document < full[k].document {
        assert full[i] == r[i] && (k < |r| ==> full[k] == r[k]);
      }
      forall p
        ensures p in full <==> p in r || (p == Posting(n, Occurrences(documents[n], term)) && p.frequency > 0)
      {
      }
    }
  }

  lemma {:induction false} OccursIff(tokens: seq<string>, term: string)
    ensures Occurrences(tokens, term) > 0 <==> term in tokens
  {
    if tokens != [] {
      OccursIff(tokens[..|tokens| - 1], term);
      assert tokens == tokens[..|tokens| - 1] + [tokens[|tokens| - 1]];
    }
  }

  /** `Counter(tokens)`. */
  method Frequencies(tokens: seq<string>) returns (counts: map<string, nat>)
    ensures forall term :: term in counts <==> term in tokens
    ensures forall term :: term in counts ==> counts[term] == Occurrences(tokens, term)
  {
    counts := map[];
    for i := 0 to |tokens|
      invariant forall term :: term in counts <==> term in tokens[..i]
      invariant forall term :: term in counts ==> counts[term] == Occurrences(tokens[..i], term)
    {
      assert tokens[..i + 1] == tokens[..i] + [tokens[i]];
      OccursIff(tokens[..i], tokens[i]);
      counts := counts[tokens[i] := (if tokens[i] in counts then counts[tokens[i]] else 0) + 1];
    }
    assert tokens[..|tokens|] == tokens;
  }

  predicate Agrees(postings: map<string, seq<Posting>>, documents: seq<seq<string>>) {
    && (forall term :: term in postings ==> postings[term] == Naive(documents, term) && postings[term] != [])
    && (forall i, term :: 0 <= i < |documents| && term in documents[i] ==> term in postings)
  }

  /** One document's counts appended to the postings built so far. */
  method AddDocument(postings: map<string, seq<Posting>>, ghost documents: seq<seq<string>>,
                     index: nat, tokens: seq<string>)
    returns (r: map<string, seq<Posting>>)
    requires Agrees(postings, documents) && index == |documents|
    ensures Agrees(r, documents + [tokens])
  {
    var counts := Frequencies(tokens);
    r := postings;
    var rest := counts.Keys;
    ghost var all := documents + [tokens];
    while rest != {}
      invariant rest <= counts.Keys
      invariant forall term :: term in r <==> term in postings || term in counts.Keys - rest
      invariant forall term :: term in r ==>
                  r[term] == (if term in postings then postings[term] else [])
                             + if term in counts.Keys - rest then [Posting(index, counts[term])] else []
    {
      var term :| term in rest;
      rest := rest - {term};
      r := r[term := (if term in r then r[term] else []) + [Posting(index, counts[term])]];
    }
    forall term | term in r
      ensures r[term] == Naive(all, term) && r[term] != []
    {
      NaiveSnoc(documents, tokens, term);
      OccursIff(tokens, term);
      AbsentIsEmpty(postings, documents, term);
    }
  }

  lemma NaiveSnoc(documents: seq<seq<string>>, tokens: seq<string>, term: string)
    ensures Naive(documents + [tokens], term) == Naive(documents, term) +
            if Occurrences(tokens, term) > 0 then [Posting(|documents|, Occurrences(tokens, term))] else []
  {
    assert (documents + [tokens])[..|documents|] == documents;
  }

  lemma NonEmptyHasTerm(documents: seq<seq<string>>, term: string)
    ensures Naive(documents, term) != [] ==> exists i :: 0 <= i < |documents| && term in documents[i]
  {
    NaiveIsExact(documents, term);
    var r := Naive(documents, term);
    if r != [] {
      assert r[0] in r;
      OccursIff(documents[r[0].document], term);
    }
  }

  lemma AbsentIsEmpty(postings: map<string, seq<Posting>>, documents: seq<seq<string>>, term: string)
    requires Agrees(postings, documents)
    ensures term !in postings ==> Naive(documents, term) == []
  {
    NonEmptyHasTerm(documents, term);
  }

  // ----- conservation -----

  ghost function Sum(terms: set<string>, f: string -> nat): nat {
    if terms == {} then 0
    else
      var term :| term in terms;
      f(term) + Sum(terms - {term}, f)
  }

  lemma {:induction false} SumTake(terms: set<string>, f: string -> nat, term: string)
    requires term in terms
    ensures Sum(terms, f) == f(term) + Sum(terms - {term}, f)
    decreases terms
  {
    var first :| first in terms && Sum(terms, f) == f(first) + Sum(terms - {first}, f);
    if first != term {
      SumTake(terms - {first}, f, term);
      SumTake(terms - {term}, f, first);
      assert terms - {first} - {term} == terms - {term} - {first};
    }
  }

  /** Sums are additive and see only the values on their terms. */
  lemma {:induction false} SumAdds(terms: set<string>, f: string -> nat, g: string -> nat, h: string -> nat)
    requires forall term :: term in terms ==> h(term) == f(term) + g(term)
    ensures Sum(terms, h) == Sum(terms, f) + Sum(terms, g)
  {
    if terms != {} {
      var term :| term in terms;
      SumTake(terms, f, term);
      SumTake(terms, g, term);
      SumTake(terms, h, term);
      SumAdds(terms - {term}, f, g, h);
    }
  }

  lemma {:induction false} SumZero(terms: set<string>, f: string -> nat)
    requires forall term :: term in terms ==> f(term) == 0
    ensures Sum(terms, f) == 0
  {
    if terms != {} {
      var term :| term in terms;
      SumTake(terms, f, term);
      SumZero(terms - {term}, f);
    }
  }

  lemma SumOne(terms: set<string>, f: string -> nat, term: string)
    requires term in terms && f(term) == 1
    requires forall other :: other in terms && other != term ==> f(other) == 0
    ensures Sum(terms, f) == 1
  {
    SumTake(terms, f, term);
    SumZero(terms - {term}, f);
  }

  lemma {:induction false} OccurrencesSum(terms: set<string>, tokens: seq<string>)
    requires forall term :: term in tokens ==> term in terms
    ensures Sum(terms, term => Occurrences(tokens, term)) == |tokens|
  {
    if tokens == [] {
      SumZero(terms, term => Occurrences(tokens, term));
    } else {
      var n := |tokens| - 1;
      OccurrencesSum(terms, tokens[..n]);
      SumOne(terms, term => if tokens[n] == term then 1 else 0, tokens[n]);
      SumAdds(terms, term => Occurrences(tokens[..n], term),
              term => if tokens[n] == term then 1 else 0, term => Occurrences(tokens, term));
    }
  }

  function Weight(list: seq<Posting>): nat {
    if list == [] then 0 else Weight(list[..|list| - 1]) + list[|list| - 1].frequency
  }

  lemma WeightSnoc(list: seq<Posting>, p: Posting)
    ensures Weight(list + [p]) == Weight(list) + p.frequency
  {
    assert (list + [p])[..|list|] == list;
  }

  function TotalLength(documents: seq<seq<string>>): nat {
    if documents == [] then 0 else TotalLength(documents[..|documents| - 1]) + |documents[|documents| - 1]|
  }

  lemma {:induction false} NaiveSum(terms: set<string>, documents: seq<seq<string>>)
    requires forall i, term :: 0 <= i < |documents| && term in documents[i] ==> term in terms
    ensures Sum(terms, term => Weight(Naive(documents, term))) == TotalLength(documents)
  {
    if documents == [] {
      SumZero(terms, term => Weight(Naive(documents, term)));
    } else {
      var n := |documents| - 1;
      NaiveSum(terms, documents[..n]);
      OccurrencesSum(terms, documents[n]);
      forall term | term in terms
        ensures Weight(Naive(documents, term)) == Weight(Naive(documents[..n], term)) + Occurrences(documents[n], term)
      {
        WeightSnoc(Naive(documents[..n], term), Posting(n, Occurrences(documents[n], term)));
        assert Naive(documents[..n], term) + [] == Naive(documents[..n], term);
      }
      SumAdds(terms, term => Weight(Naive(documents[..n], term)),
              term => Occurrences(documents[n], term), term => Weight(Naive(documents, term)));
    }
  }

  ghost function Frequency(postings: map<string, seq<Posting>>): nat {
    Sum(postings.Keys, term => if term in postings then Weight(postings[term]) else 0)
  }

  /** Every token of every document is counted in exactly one posting. */
  lemma FrequenciesAreConserved(postings: map<string, seq<Posting>>, documents: seq<seq<string>>)
    requires Agrees(postings, documents)
    ensures Frequency(postings) == TotalLength(documents)
  {
    var terms := postings.Keys;
    NaiveSum(terms, documents);
    SumZero(terms, term => 0);
    SumAdds(terms, term => Weight(Naive(documents, term)), term => 0,
            term => if term in postings then Weight(postings[term]) else 0);
  }

  // ----- the index -----

  /** The term list of every text. */
  function TermsOf(texts: seq<string>): (r: seq<seq<string>>)
    ensures |r| == |texts|
  {
    if texts == [] then [] else TermsOf(texts[..|texts| - 1]) + [Bm25Terms(Tokens(texts[|texts| - 1]))]
  }

  ghost predicate Describes(index: Index, documents: seq<seq<string>>) {
    && Agrees(index.postings, documents)
    && |index.lengths| == |documents|
    && (forall i :: 0 <= i < |documents| ==> index.lengths[i] == |documents[i]|)
    && (documents == [] ==> index.average == 0.0)
    && index.average * |documents| as real == Frequency(index.postings) as real
  }

  lemma NoDocuments()
    ensures Agrees(map[], []) && TermsOf([]) == [] && TotalLength([]) == 0
  {
  }

  lemma DocumentsSnoc(texts: seq<string>, text: string)
    ensures TermsOf(texts + [text]) == TermsOf(texts) + [Bm25Terms(Tokens(text))]
    ensures TotalLength(TermsOf(texts + [text])) == TotalLength(TermsOf(texts)) + |Bm25Terms(Tokens(text))|
  {
    hide Tokens, Bm25Terms;
    assert (texts + [text])[..|texts|] == texts;
    var documents, tokens := TermsOf(texts), Bm25Terms(Tokens(text));
    assert (documents + [tokens])[..|documents|] == documents;
  }

  lemma DescribesFrom(index: Index, documents: seq<seq<string>>)
    requires Agrees(index.postings, documents) && |index.lengths| == |documents|
    requires forall i :: 0 <= i < |documents| ==> index.lengths[i] == |documents[i]|
    requires index.average == Average(TotalLength(documents), |documents|)
    ensures Describes(index, documents)
  {
    hide Agrees, Frequency, Average;
    FrequenciesAreConserved(index.postings, documents);
  }

  function Average(total: nat, count: nat): (r: real)
    ensures count == 0 ==> r == 0.0
    ensures count != 0 ==> r * count as real == total as real
  {
    if count == 0 then 0.0 else total as real / count as real
  }

  /** The stored postings are the naive ones, and the stored average times the
      number of documents is the sum of all stored frequencies. */
  method BuildBm25Index(texts: seq<string>) returns (index: Index)
    ensures Describes(index, TermsOf(texts))
  {
    hide *;
    var postings: map<string, seq<Posting>> := map[];
    var lengths: seq<nat> := [];
    var totalLength := 0;
    NoDocuments();
    assert texts[..0] == [];
    for i := 0 to |texts|
      invariant Agrees(postings, TermsOf(texts[..i]))
      invariant |lengths| == i
      invariant forall k :: 0 <= k < i ==> lengths[k] == |TermsOf(texts[..i])[k]|
      invariant totalLength == TotalLength(TermsOf(texts[..i]))
    {
      var tokens := TokenizeBm25(texts[i]);
      DocumentsSnoc(texts[..i], texts[i]);
      assert texts[..i + 1] == texts[..i] + [texts[i]];
      totalLength := totalLength + |tokens|;
      lengths := lengths + [|tokens|];
      postings := AddDocument(postings, TermsOf(texts[..i]), i, tokens);
    }
    assert texts[..|texts|] == texts;
    index := Index(postings, lengths, Average(totalLength, |lengths|));
    DescribesFrom(index, TermsOf(texts));
  }
}
