/** The evidence pipeline: verification of candidates, then selection for a context. */
module EvidencePipeline {
  import opened Wrappers
  import opened Sequences
  import opened EvidenceVerification
  import opened EvidenceSelection
  import opened SelectedContext
  import Ordering
  import Text

  datatype Bundle = Bundle(evidence: seq<Evidence>, rejected: seq<string>)

  datatype VerifyError = RerankerMismatch | UnusableLocator

  predicate Given(field: Option<string>) {
    field.Some? && field.value != ""
  }

  /** The locator's work id, else the candidate's, else the document id; "" does
      not count, but white space does. */
  function WorkId(l: Located): string {
    if Given(l.locator.workId) then l.locator.workId.value
    else if Given(l.candidate.workId) then l.candidate.workId.value
    else l.locator.documentId
  }

  /** What a record of local evidence demands of a located candidate. */
  predicate Usable(item: Located) {
    var l := item.locator;
    && l.pageStart >= 1 && l.pageEnd >= l.pageStart && l.blockIds != []
    && !Text.Blank(l.documentId) && !Text.Blank(l.chunkId) && !Text.Blank(l.content)
    && !Text.Blank(WorkId(item))
  }

  /** Such an item has no usable locator. */
  predicate Defective(item: Located) {
    var l, c := item.locator, item.candidate;
    || l.pageStart < 1 || l.pageEnd < l.pageStart || l.blockIds == []
    || Text.Blank(l.documentId) || Text.Blank(l.chunkId) || Text.Blank(l.content)
    || (l.workId.Some? && l.workId.value != "" && Text.Blank(l.workId.value))
    || ((l.workId == None || l.workId.value == "") && c.workId.Some? && c.workId.value != "" && Text.Blank(c.workId.value))
  }

  lemma DefectiveIff(item: Located)
    ensures Defective(item) <==> !Usable(item)
  {
    hide Text.Blank;
  }

  predicate IsWeb(c: Candidate) { c.web }

  predicate IsLocal(c: Candidate) { !c.web }

  function LocalEvidence(r: Ranked): Evidence {
    var l := r.item.locator;
    Evidence(r.item.candidate.id, true, l.documentId, l.chunkId, r.item.candidate.canonicalId, r.item.candidate.relationPath,
             l.pageStart, l.pageEnd, l.content, r.score, false)
  }

  function ExternalEvidence(resolver: Option<Resolver>, c: Candidate): Evidence {
    var source := SourceOf(resolver, c);
    Evidence(c.id, false, "", "", if source.Some? then Some(source.value.0) else None, [], 0, 0, c.content, c.storedScore, false)
  }

  function Zip(items: seq<Located>, scores: seq<real>): seq<Ranked>
    requires |items| == |scores|
  {
    seq(|items|, i requires 0 <= i < |items| => Ranked(items[i], scores[i]))
  }

  function Items(ranked: seq<Ranked>): seq<Located> {
    Map(ranked, (r: Ranked) => r.item)
  }

  // ----- the local stages together -----

  /** `kept` is the best located candidate of every key. */
  ghost predicate Sourced(local: seq<Candidate>, keep: Candidate -> bool, locate: string -> Option<Locator>,
                          located: seq<Located>, kept: seq<Located>) {
    && CandidatesOf(located) == Filter(Filter(local, keep), c => Locates(locate, c))
    && (forall l :: l in located ==> locate(l.candidate.chunkId) == Some(l.locator))
    && BestPerKey(located, kept)
  }

  function Diverse(kept: seq<Located>, limit: nat): seq<Located> {
    FirstPerDocument(Ordering.Sort(kept, Better), limit)
  }

  function Rank(diverse: seq<Located>, rerank: seq<Candidate> -> seq<real>): Result<seq<Ranked>, VerifyError> {
    var scores := rerank(CandidatesOf(diverse));
    if |scores| != |diverse| then Err(RerankerMismatch)
    else Ok(Ordering.Sort(Zip(diverse, scores), RankedBefore))
  }

  lemma SortKeepsCandidates(items: seq<Located>)
    ensures multiset(CandidatesOf(Ordering.Sort(items, Better))) == multiset(CandidatesOf(items))
  {
    Ordering.SortKeeps(items, Better);
    MapPermutes(Ordering.Sort(items, Better), items, (l: Located) => l.candidate);
  }

  lemma RankKeepsItems(diverse: seq<Located>, rerank: seq<Candidate> -> seq<real>)
    ensures Rank(diverse, rerank).Ok? ==> multiset(Items(Rank(diverse, rerank).value)) == multiset(diverse)
  {
    var scores := rerank(CandidatesOf(diverse));
    if |scores| == |diverse| {
      var pairs := Zip(diverse, scores);
      Ordering.SortKeeps(pairs, RankedBefore);
      MapPermutes(Ordering.Sort(pairs, RankedBefore), pairs, (r: Ranked) => r.item);
      assert Items(pairs) == diverse;
    }
  }

  lemma AccountsChain(a: seq<Candidate>, b: seq<Candidate>, c: seq<Candidate>, d: seq<Candidate>, e: seq<Candidate>)
    requires Accounts(a, b, d) && Accounts(b, c, e)
    ensures Accounts(a, c, d + e)
  {
    calc {
      multiset(c) + multiset(d + e);
      multiset(c) + multiset(e) + multiset(d);
      multiset(b) + multiset(d);
      multiset(a);
    }
  }

  lemma AccountsPermuted(a: seq<Candidate>, b: seq<Candidate>, b': seq<Candidate>, d: seq<Candidate>)
    requires Accounts(a, b, d) && multiset(b) == multiset(b')
    ensures Accounts(a, b', d)
  {
  }

  method VerifyLocal(local: seq<Candidate>, keep: Candidate -> bool, locate: string -> Option<Locator>,
                     rerank: seq<Candidate> -> seq<real>, limit: nat)
    returns (r: Result<seq<Ranked>, VerifyError>, scoped: seq<Candidate>, dropped: seq<Candidate>,
             ghost located: seq<Located>, ghost kept: seq<Located>)
    ensures scoped == Filter(local, keep)
    ensures Sourced(local, keep, locate, located, kept)
    ensures r == Rank(Diverse(kept, limit), rerank)
    ensures r.Ok? ==> Accounts(local, CandidatesOf(Items(r.value)), dropped)
  {
    scoped := Filter(local, keep);
    var outside := Filter(local, c => !keep(c));
    var found, unlocated := LocateAll(scoped, locate);
    var best, repeated := Deduplicate(found);
    var sorted := Ordering.Sort(best, Better);
    var diverse, crowded := LimitPerDocument(sorted, limit);
    r := Rank(diverse, rerank);
    dropped := outside + unlocated + repeated + crowded;
    located, kept := found, best;
    assert Sourced(local, keep, locate, located, kept) && diverse == Diverse(kept, limit);
    FilterSplits(local, keep, c => !keep(c));
    FilterSplits(scoped, c => Locates(locate, c), c => !Locates(locate, c));
    LocalAccount(local, scoped, found, best, diverse, outside, unlocated, repeated, crowded);
    if r.Ok? {
      RankKeepsItems(diverse, rerank);
      MapPermutes(Items(r.value), diverse, (l: Located) => l.candidate);
    }
  }

  lemma LocalAccount(local: seq<Candidate>, scoped: seq<Candidate>, found: seq<Located>, best: seq<Located>,
                     diverse: seq<Located>, outside: seq<Candidate>, unlocated: seq<Candidate>,
                     repeated: seq<Candidate>, crowded: seq<Candidate>)
    requires Accounts(local, scoped, outside) && Accounts(scoped, CandidatesOf(found), unlocated)
    requires Accounts(CandidatesOf(found), CandidatesOf(best), repeated)
    requires Accounts(CandidatesOf(Ordering.Sort(best, Better)), CandidatesOf(diverse), crowded)
    ensures Accounts(local, CandidatesOf(diverse), outside + unlocated + repeated + crowded)
  {
    hide Accounts, CandidatesOf;
    var sorted := CandidatesOf(Ordering.Sort(best, Better));
    SortKeepsCandidates(best);
    AccountsChain(local, scoped, CandidatesOf(found), outside, unlocated);
    AccountsChain(local, CandidatesOf(found), CandidatesOf(best), outside + unlocated, repeated);
    AccountsPermuted(local, CandidatesOf(best), sorted, outside + unlocated + repeated);
    AccountsChain(local, sorted, CandidatesOf(diverse), outside + unlocated + repeated, crowded);
  }

  // ----- what the verified local evidence satisfies -----

  function PassagesOf(local: seq<Evidence>, document: string): nat {
    multiset(Map(local, (e: Evidence) => e.documentId))[document]
  }

  function LocatedIn(items: seq<Located>, document: string): nat {
    multiset(Map(items, (l: Located) => l.locator.documentId))[document]
  }

  /** No passage twice along one relation path, a bounded number of passages per
      document, best reranked first. */
  ghost predicate Governed(local: seq<Evidence>, limit: nat) {
    && NoRepeats(Map(local, (e: Evidence) => (e.chunkId, e.relationPath)))
    && (forall d :: PassagesOf(local, d) <= limit)
    && Ordering.Ordered(local, HigherScore)
  }

  lemma {:induction false} FirstPerDocumentKeys(items: seq<Located>, limit: nat)
    requires DistinctKeys(items)
    ensures DistinctKeys(FirstPerDocument(items, limit))
  {
    if items != [] {
      var n := |items| - 1;
      FirstPerDocumentKeys(items[..n], limit);
      FirstPerDocumentMembers(items[..n], limit);
      forall l | l in FirstPerDocument(items[..n], limit) ensures Key(l) != Key(items[n]) {
        var i :| 0 <= i < n && items[i] == l;
      }
    }
  }

  lemma {:induction false} CountIsMultiplicity(items: seq<Located>, d: string)
    ensures CountDocument(items, d) == LocatedIn(items, d)
  {
    if items != [] {
      var f := (l: Located) => l.locator.documentId;
      CountIsMultiplicity(items[..|items| - 1], d);
      assert Map(items, f) == Map(items[..|items| - 1], f) + [f(items[|items| - 1])];
    }
  }

  lemma KeysPermute(items: seq<Located>, other: seq<Located>)
    requires multiset(items) == multiset(other) && DistinctKeys(items)
    ensures DistinctKeys(other)
  {
    MapPermutes(items, other, Key);
    NoRepeatsIff(Map(items, Key));
    NoRepeatsIff(Map(other, Key));
  }

  lemma DiverseHolds(kept: seq<Located>, limit: nat)
    requires DistinctKeys(kept)
    ensures DistinctKeys(Diverse(kept, limit))
    ensures forall d :: CountDocument(Diverse(kept, limit), d) <= limit
  {
    var sorted := Ordering.Sort(kept, Better);
    Ordering.SortKeeps(kept, Better);
    KeysPermute(kept, sorted);
    FirstPerDocumentKeys(sorted, limit);
    forall d ensures CountDocument(Diverse(kept, limit), d) <= limit {
      FirstPerDocumentCounts(sorted, limit, d);
    }
  }

  lemma RankedIsGoverned(kept: seq<Located>, limit: nat, rerank: seq<Candidate> -> seq<real>)
    requires DistinctKeys(kept) && Rank(Diverse(kept, limit), rerank).Ok?
    ensures Governed(Map(Rank(Diverse(kept, limit), rerank).value, LocalEvidence), limit)
  {
    var diverse := Diverse(kept, limit);
    var ranked := Rank(diverse, rerank).value;
    DiverseHolds(kept, limit);
    RankKeepsItems(diverse, rerank);
    BetterIsWeakOrder();
    Ordering.SortOrders(Zip(diverse, rerank(CandidatesOf(diverse))), RankedBefore);
    KeysPermute(diverse, Items(ranked));
    var document := (l: Located) => l.locator.documentId;
    MapPermutes(Items(ranked), diverse, document);
    forall d ensures LocatedIn(Items(ranked), d) <= limit { CountIsMultiplicity(diverse, d); }
    GovernedEvidence(ranked, limit);
  }

  lemma GovernedEvidence(ranked: seq<Ranked>, limit: nat)
    requires DistinctKeys(Items(ranked)) && Ordering.Ordered(ranked, RankedBefore)
    requires forall d :: LocatedIn(Items(ranked), d) <= limit
    ensures Governed(Map(ranked, LocalEvidence), limit)
  {
    var local := Map(ranked, LocalEvidence);
    forall d ensures PassagesOf(local, d) <= limit {
      assert Map(local, (e: Evidence) => e.documentId) == Map(Items(ranked), (l: Located) => l.locator.documentId);
      assert PassagesOf(local, d) == LocatedIn(Items(ranked), d);
    }
    forall i, k | 0 <= i < k < |ranked|
      ensures (local[i].chunkId, local[i].relationPath) != (local[k].chunkId, local[k].relationPath)
    {
      assert Key(Items(ranked)[i]) != Key(Items(ranked)[k]);
    }
  }

  /** A document over its limit keeps its best scored passages. */
  lemma LimitKeepsBest(kept: seq<Located>, limit: nat, l: Located)
    requires l in kept && l !in Diverse(kept, limit)
    ensures CountDocument(Diverse(kept, limit), l.locator.documentId) == limit
    ensures forall w :: w in Diverse(kept, limit) && w.locator.documentId == l.locator.documentId ==>
              || w.candidate.score > l.candidate.score
              || (w.candidate.score == l.candidate.score && !Ordering.StringLess(l.candidate.id, w.candidate.id))
  {
    var sorted := Ordering.Sort(kept, Better);
    BetterIsWeakOrder();
    Ordering.SortKeeps(kept, Better);
    Ordering.SortOrders(kept, Better);
    assert l in multiset(kept) && l in multiset(sorted);
    DroppedIsLater(sorted, limit, l);
    forall w | w in Diverse(kept, limit) && w.locator.documentId == l.locator.documentId ensures !Better(l, w) {
      var i, k :| 0 <= i < k < |sorted| && sorted[i] == w && sorted[k] == l;
    }
  }

  // ----- where verified evidence comes from -----

  /** Local evidence carries the text and the place the corpus gives, not those of
      the candidate. */
  predicate Canonical(e: Evidence, c: Candidate, l: Locator) {
    && c.documentId == Some(l.documentId) && e.isLocal && e.id == c.id
    && e.content == l.content && e.documentId == l.documentId && e.chunkId == l.chunkId
    && e.pageStart == l.pageStart && e.pageEnd == l.pageEnd
    && e.relationPath == c.relationPath && e.canonicalId == c.canonicalId && !e.selected
  }

  /** External evidence carries what its resolver answered. */
  predicate Quotes(e: Evidence, c: Candidate, r: Resolution) {
    && !e.isLocal && e.id == c.id && e.content == r.content && e.canonicalId == Some(r.canonicalId)
    && e.documentId == "" && e.score == c.storedScore && !e.selected
  }

  ghost predicate FromCorpus(e: Evidence, candidates: seq<Candidate>, keep: Candidate -> bool,
                             locate: string -> Option<Locator>) {
    exists c :: c in candidates && !c.web && keep(c) && locate(c.chunkId).Some? && Canonical(e, c, locate(c.chunkId).value)
  }

  ghost predicate FromResolver(e: Evidence, candidates: seq<Candidate>, request: Request, resolver: Option<Resolver>,
                               digest: string -> string) {
    exists c :: c in candidates && c.web && resolver.Some? && resolver.value(c).Some?
                && Answers(c, resolver.value(c).value, request, digest) && Quotes(e, c, resolver.value(c).value)
  }

  ghost predicate AllSourced(evidence: seq<Evidence>, candidates: seq<Candidate>, request: Request,
                             keep: Candidate -> bool, locate: string -> Option<Locator>,
                             resolver: Option<Resolver>, digest: string -> string) {
    forall e :: e in evidence ==>
      if e.isLocal then FromCorpus(e, candidates, keep, locate) else FromResolver(e, candidates, request, resolver, digest)
  }

  /** The ranked items are the diverse ones, each with the reranker's score for it. */
  ghost predicate Scored(ranked: seq<Ranked>, diverse: seq<Located>, scores: seq<real>) {
    && |scores| == |diverse| && |ranked| == |diverse|
    && forall r :: r in ranked ==> exists i :: 0 <= i < |diverse| && diverse[i] == r.item && scores[i] == r.score
  }

  lemma RankScores(diverse: seq<Located>, rerank: seq<Candidate> -> seq<real>)
    requires Rank(diverse, rerank).Ok?
    ensures Scored(Rank(diverse, rerank).value, diverse, rerank(CandidatesOf(diverse)))
  {
    var scores := rerank(CandidatesOf(diverse));
    var pairs, ranked := Zip(diverse, scores), Rank(diverse, rerank).value;
    Ordering.SortKeeps(pairs, RankedBefore);
    assert |multiset(ranked)| == |ranked| && |multiset(pairs)| == |pairs|;
    forall r | r in ranked ensures exists i :: 0 <= i < |diverse| && diverse[i] == r.item && scores[i] == r.score {
      assert r in multiset(pairs);
      var i :| 0 <= i < |pairs| && pairs[i] == r;
      assert diverse[i] == r.item && scores[i] == r.score;
    }
  }

  /** The item is a candidate in scope at the place the corpus gives for its chunk,
      in its own document. */
  predicate InCorpus(item: Located, local: seq<Candidate>, keep: Candidate -> bool, locate: string -> Option<Locator>) {
    && item.candidate in local && keep(item.candidate)
    && locate(item.candidate.chunkId) == Some(item.locator) && item.candidate.documentId == Some(item.locator.documentId)
  }

  lemma RankedAreLocated(local: seq<Candidate>, keep: Candidate -> bool, locate: string -> Option<Locator>,
                         located: seq<Located>, kept: seq<Located>, limit: nat, ranked: seq<Ranked>, scores: seq<real>)
    requires Sourced(local, keep, locate, located, kept) && Scored(ranked, Diverse(kept, limit), scores)
    ensures forall r :: r in ranked ==>
              InCorpus(r.item, local, keep, locate)
  {
    hide *;
    forall r | r in ranked
      ensures InCorpus(r.item, local, keep, locate)
    {
      ScoredItem(ranked, Diverse(kept, limit), scores, r);
      DiverseIsKept(kept, limit, r.item);
      KeptIsLocal(local, keep, locate, located, kept, r.item);
    }
  }

  lemma ScoredItem(ranked: seq<Ranked>, diverse: seq<Located>, scores: seq<real>, r: Ranked)
    requires Scored(ranked, diverse, scores) && r in ranked
    ensures r.item in diverse
  {
  }

  lemma DiverseIsKept(kept: seq<Located>, limit: nat, item: Located)
    requires item in Diverse(kept, limit)
    ensures item in kept
  {
    FirstPerDocumentMembers(Ordering.Sort(kept, Better), limit);
    Ordering.SortKeeps(kept, Better);
    assert item in multiset(Ordering.Sort(kept, Better)) && item in multiset(kept);
  }

  lemma KeptIsLocal(local: seq<Candidate>, keep: Candidate -> bool, locate: string -> Option<Locator>,
                    located: seq<Located>, kept: seq<Located>, item: Located)
    requires Sourced(local, keep, locate, located, kept) && item in kept
    ensures InCorpus(item, local, keep, locate)
  {
    KeptIsLocated(located, kept, item);
    hide BestPerKey, Filter;
    var i :| 0 <= i < |located| && located[i] == item;
    assert CandidatesOf(located)[i] == item.candidate;
    FilterMembers(Filter(local, keep), c => Locates(locate, c));
    FilterMembers(local, keep);
  }

  lemma KeptIsLocated(located: seq<Located>, kept: seq<Located>, item: Located)
    requires BestPerKey(located, kept) && item in kept
    ensures item in located
  {
  }

  lemma {:induction false} AdmittedAreConfirmed(external: seq<Candidate>, request: Request, resolver: Option<Resolver>,
                                                digest: string -> string)
    ensures forall c :: c in Admitted(external, request, resolver, digest) ==>
              c in external && Resolves(request, resolver, c) && Confirms(resolver, c, digest)
  {
    AdmittedAt(external, request, resolver, digest);
  }

  /** Everything in the bundle is canonical text or a resolver's answer, for a
      candidate of the same id. */
  lemma BundleIsSourced(candidates: seq<Candidate>, external: seq<Candidate>, ranked: seq<Ranked>, request: Request,
                        keep: Candidate -> bool, locate: string -> Option<Locator>,
                        resolver: Option<Resolver>, digest: string -> string)
    requires external == Admitted(Filter(candidates, IsWeb), request, resolver, digest)
    requires forall r :: r in ranked ==> InCorpus(r.item, Filter(candidates, IsLocal), keep, locate)
    ensures AllSourced(Map(external, c => ExternalEvidence(resolver, c)) + Map(ranked, LocalEvidence), candidates,
                       request, keep, locate, resolver, digest)
  {
    var web, local := Map(external, c => ExternalEvidence(resolver, c)), Map(ranked, LocalEvidence);
    FilterMembers(candidates, IsWeb);
    FilterMembers(candidates, IsLocal);
    AdmittedAreConfirmed(Filter(candidates, IsWeb), request, resolver, digest);
    forall i | 0 <= i < |external| ensures !web[i].isLocal && FromResolver(web[i], candidates, request, resolver, digest) {
      var c := external[i];
      AnswersIff(c, request, resolver, digest);
      assert c in external && Quotes(web[i], c, resolver.value(c).value);
    }
    forall i | 0 <= i < |ranked| ensures local[i].isLocal && FromCorpus(local[i], candidates, keep, locate) {
      var c := ranked[i].item.candidate;
      assert ranked[i] in ranked && Canonical(local[i], c, locate(c.chunkId).value);
    }
  }

  // ----- the pipeline object -----

  /** Every candidate is verified once or rejected once; the bundle lists each
      rejected id once; the local part is governed and the external sources differ. */
  ghost predicate Verified(bundle: Bundle, candidates: seq<Candidate>, external: seq<Candidate>, ranked: seq<Ranked>,
                           rejections: seq<string>, resolver: Option<Resolver>, limit: nat) {
    && bundle.evidence == Map(external, c => ExternalEvidence(resolver, c)) + Map(ranked, LocalEvidence)
    && bundle.rejected == Distinct(rejections)
    && multiset(Map(bundle.evidence, (e: Evidence) => e.id)) + multiset(rejections) == multiset(Ids(candidates))
    && DistinctSources(external, resolver)
    && Governed(Map(ranked, LocalEvidence), limit)
    && forall r :: r in ranked ==> Usable(r.item)
  }

  lemma IdsAccount(candidates: seq<Candidate>, web: seq<Candidate>, local: seq<Candidate>, external: seq<Candidate>,
                   ranked: seq<Ranked>, unresolved: seq<Candidate>, dropped: seq<Candidate>, resolver: Option<Resolver>)
    requires multiset(web) + multiset(local) == multiset(candidates)
    requires Accounts(web, external, unresolved) && Accounts(local, CandidatesOf(Items(ranked)), dropped)
    ensures var evidence := Map(external, c => ExternalEvidence(resolver, c)) + Map(ranked, LocalEvidence);
            multiset(Map(evidence, (e: Evidence) => e.id)) + multiset(Ids(dropped + unresolved)) == multiset(Ids(candidates))
  {
    var kept := external + CandidatesOf(Items(ranked));
    var id := (c: Candidate) => c.id;
    var all := kept + (dropped + unresolved);
    assert multiset(all) == multiset(candidates);
    MapPermutes(all, candidates, id);
    MapConcat(kept, dropped + unresolved, id);
    var evidence := Map(external, c => ExternalEvidence(resolver, c)) + Map(ranked, LocalEvidence);
    assert Map(evidence, (e: Evidence) => e.id) == Map(kept, id);
  }

  class EvidenceIntelligencePipeline {
    const keep: Candidate -> bool
    const locate: string -> Option<Locator>
    const rerank: seq<Candidate> -> seq<real>
    const resolver: Option<Resolver>
    const digest: string -> string
    const maxCandidates: nat
    const maxSelected: nat
    // the diagnostics; an entry that is missing reads 0
    var inputCount: nat
    var scopePassCount: nat
    var verifiedCount: nat
    var rejectedCount: nat
    var selectedCount: nat
    var selectedTokens: nat

    constructor (keep: Candidate -> bool, locate: string -> Option<Locator>, rerank: seq<Candidate> -> seq<real>,
                 resolver: Option<Resolver>, digest: string -> string, maxCandidates: nat, maxSelected: nat)
      requires maxCandidates >= 1 && maxSelected >= 1
      ensures this.maxCandidates == maxCandidates && this.maxSelected == maxSelected
      ensures this.keep == keep && this.locate == locate && this.rerank == rerank
      ensures this.resolver == resolver && this.digest == digest
    {
      this.keep, this.locate, this.rerank, this.resolver, this.digest := keep, locate, rerank, resolver, digest;
      this.maxCandidates, this.maxSelected := maxCandidates, maxSelected;
      inputCount, scopePassCount, verifiedCount, rejectedCount, selectedCount, selectedTokens := 0, 0, 0, 0, 0, 0;
    }

    method Verify(request: Request, candidates: seq<Candidate>)
      returns (r: Result<Bundle, VerifyError>, ghost rejections: seq<string>, ghost external: seq<Candidate>,
               ghost ranked: seq<Ranked>, ghost located: seq<Located>, ghost kept: seq<Located>)
      modifies this
      ensures Sourced(Filter(candidates, IsLocal), keep, locate, located, kept)
      ensures r == Err(RerankerMismatch) <==> Rank(Diverse(kept, maxCandidates), rerank).Err?
      ensures r == Err(UnusableLocator) <==>
                var order := Rank(Diverse(kept, maxCandidates), rerank);
                order.Ok? && exists k :: 0 <= k < |order.value| && Defective(order.value[k].item)
      ensures r.Ok? ==>
                && external == Admitted(Filter(candidates, IsWeb), request, resolver, digest)
                && Rank(Diverse(kept, maxCandidates), rerank) == Ok(ranked)
                && Verified(r.value, candidates, external, ranked, rejections, resolver, maxCandidates)
                && AllSourced(r.value.evidence, candidates, request, keep, locate, resolver, digest)
                && Scored(ranked, Diverse(kept, maxCandidates), rerank(CandidatesOf(Diverse(kept, maxCandidates))))
                && inputCount == |candidates| && scopePassCount == |Filter(Filter(candidates, IsLocal), keep)|
                && verifiedCount == |r.value.evidence| && rejectedCount == |r.value.rejected|
                && selectedCount == selectedTokens == 0
      ensures r.Err? ==> unchanged(this)
    {
      hide *;
      var web, local := Filter(candidates, IsWeb), Filter(candidates, IsLocal);
      WebOrLocal(candidates);
      var order, scoped, dropped;
      order, scoped, dropped, located, kept := VerifyLocal(local, keep, locate, rerank, maxCandidates);
      rejections, external, ranked := [], [], [];
      if order.Err? {
        RankErrors(Diverse(kept, maxCandidates), rerank);
        return Err(order.error), rejections, external, ranked, located, kept;
      }
      var admitted, unresolved := VerifyExternal(web, request, resolver, digest);
      external, ranked := admitted, order.value;
      forall k | 0 <= k < |order.value| ensures Defective(order.value[k].item) <==> !Usable(order.value[k].item) {
        DefectiveIff(order.value[k].item);
      }
      if exists k :: 0 <= k < |order.value| && !Usable(order.value[k].item) {
        return Err(UnusableLocator), rejections, external, ranked, located, kept;
      }
      var rejected := Ids(dropped + unresolved);
      rejections := rejected;
      var bundle := Bundle(Map(admitted, c => ExternalEvidence(resolver, c)) + Map(order.value, LocalEvidence), Distinct(rejected));
      IdsAccount(candidates, web, local, admitted, order.value, unresolved, dropped, resolver);
      AdmittedSourcesDiffer(web, request, resolver, digest);
      SourcedKeys(local, keep, locate, located, kept);
      RankedIsGoverned(kept, maxCandidates, rerank);
      RankScores(Diverse(kept, maxCandidates), rerank);
      RankedAreLocated(local, keep, locate, located, kept, maxCandidates, ranked, rerank(CandidatesOf(Diverse(kept, maxCandidates))));
      BundleIsSourced(candidates, external, ranked, request, keep, locate, resolver, digest);
      VerifiedIs(bundle, candidates, external, ranked, rejections, resolver, maxCandidates);
      inputCount, scopePassCount := |candidates|, |scoped|;
      verifiedCount, rejectedCount := |bundle.evidence|, |bundle.rejected|;
      selectedCount, selectedTokens := 0, 0;
      r := Ok(bundle);
    }

    /** Everything selected is verified evidence, chosen greedily within the three
        limits, and the context builder accepts it under the same budget. */
    method SelectForContext(bundle: Bundle, budget: int, topK: int)
      returns (r: Result<seq<SelectedEvidence>, string>, ghost chosen: seq<nat>)
      modifies this`selectedCount, this`selectedTokens
      ensures r.Err? <==> budget < 1
      ensures r.Err? ==> unchanged(this)
      ensures r.Ok? ==>
                var ordered := Ordering.Sort(bundle.evidence, HigherScore);
                var limits := Limits(budget, topK, maxSelected);
                && RanksAll(bundle.evidence, ordered) && Reports(ordered, chosen, r.value)
                && Greedy(ordered, limits, chosen, |ordered|)
                && WithinLimits(ordered, limits, chosen)
                && selectedCount == |r.value| && selectedTokens == Used(ordered, chosen)
                && Build(r.value, budget) == Ok(ContextPack(r.value, Rendered(r.value), selectedTokens, budget))
    {
      hide *;
      var used;
      var limits := Limits(budget, topK, maxSelected);
      r, used, chosen := Select(bundle.evidence, limits);
      if r.Ok? {
        SelectionBuilds(Ordering.Sort(bundle.evidence, HigherScore), limits, chosen, r.value);
        selectedCount, selectedTokens := |r.value|, used;
      }
    }
  }

  lemma WebOrLocal(candidates: seq<Candidate>)
    ensures multiset(Filter(candidates, IsWeb)) + multiset(Filter(candidates, IsLocal)) == multiset(candidates)
  {
    FilterSplits(candidates, IsWeb, IsLocal);
  }

  lemma RankErrors(diverse: seq<Located>, rerank: seq<Candidate> -> seq<real>)
    ensures Rank(diverse, rerank).Err? ==> Rank(diverse, rerank).error == RerankerMismatch
  {
  }

  lemma SourcedKeys(local: seq<Candidate>, keep: Candidate -> bool, locate: string -> Option<Locator>,
                    located: seq<Located>, kept: seq<Located>)
    requires Sourced(local, keep, locate, located, kept)
    ensures DistinctKeys(kept)
  {
  }

  lemma VerifiedIs(bundle: Bundle, candidates: seq<Candidate>, external: seq<Candidate>, ranked: seq<Ranked>,
                   rejections: seq<string>, resolver: Option<Resolver>, limit: nat)
    requires bundle.evidence == Map(external, c => ExternalEvidence(resolver, c)) + Map(ranked, LocalEvidence)
    requires bundle.rejected == Distinct(rejections)
    requires multiset(Map(bundle.evidence, (e: Evidence) => e.id)) + multiset(rejections) == multiset(Ids(candidates))
    requires DistinctSources(external, resolver) && Governed(Map(ranked, LocalEvidence), limit)
    requires forall k :: 0 <= k < |ranked| ==> Usable(ranked[k].item)
    ensures Verified(bundle, candidates, external, ranked, rejections, resolver, limit)
  {
  }
}
