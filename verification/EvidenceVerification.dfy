/** The stages that turn retrieved candidates into verified evidence, each with
    an account of what it rejects. */
module EvidenceVerification {
  import opened Wrappers
  import opened Sequences
  import Ordering

  datatype Candidate = Candidate(
    id: string, workspace: string, scopeVersion: int, content: string, score: real,
    documentId: Option<string>, workId: Option<string>, canonicalId: Option<string>, chunkId: string, relationPath: seq<string>,
    web: bool, storedScore: real)

  datatype Locator = Locator(
    documentId: string, workId: Option<string>, chunkId: string, pageStart: int, pageEnd: int,
    blockIds: seq<string>, content: string)

  datatype Resolution = Resolution(
    candidateId: string, canonicalId: string, sourceLocator: string, content: string, contentHash: string)

  datatype Located = Located(candidate: Candidate, locator: Locator)

  datatype Ranked = Ranked(item: Located, score: real)

  type Resolver = Candidate -> Option<Resolution>

  function Ids(candidates: seq<Candidate>): seq<string> {
    Map(candidates, (c: Candidate) => c.id)
  }

  function CandidatesOf(items: seq<Located>): seq<Candidate> {
    Map(items, (l: Located) => l.candidate)
  }

  /** Nothing is lost or invented between `input` and what was kept or dropped. */
  ghost predicate Accounts(input: seq<Candidate>, kept: seq<Candidate>, dropped: seq<Candidate>) {
    multiset(kept) + multiset(dropped) == multiset(input)
  }

  lemma AccountsStep(input: seq<Candidate>, kept: seq<Candidate>, dropped: seq<Candidate>,
                     x: Candidate, next: seq<Candidate>, lost: seq<Candidate>)
    requires Accounts(input, kept, dropped)
    requires multiset(next) + multiset(lost) == multiset(kept) + multiset{x}
    ensures Accounts(input + [x], next, dropped + lost)
  {
    calc {
      multiset(next) + multiset(dropped + lost);
      multiset(next) + multiset(lost) + multiset(dropped);
      multiset(kept) + multiset(dropped) + multiset{x};
      multiset(input) + multiset{x};
      multiset(input + [x]);
    }
  }

  lemma KeepOrDrop(input: seq<Candidate>, kept: seq<Candidate>, dropped: seq<Candidate>, x: Candidate)
    requires Accounts(input, kept, dropped)
    ensures Accounts(input + [x], kept + [x], dropped)
    ensures Accounts(input + [x], kept, dropped + [x])
  {
    AccountsStep(input, kept, dropped, x, kept + [x], []);
    AccountsStep(input, kept, dropped, x, kept, [x]);
    assert dropped + [] == dropped;
  }

  lemma CandidatesSnoc(items: seq<Located>, x: Located)
    ensures CandidatesOf(items + [x]) == CandidatesOf(items) + [x.candidate]
  {
  }

  // ----- location in the canonical corpus -----

  predicate Locates(locate: string -> Option<Locator>, c: Candidate) {
    locate(c.chunkId).Some? && c.documentId == Some(locate(c.chunkId).value.documentId)
  }

  method LocateAll(scoped: seq<Candidate>, locate: string -> Option<Locator>)
    returns (located: seq<Located>, dropped: seq<Candidate>)
    ensures CandidatesOf(located) == Filter(scoped, c => Locates(locate, c))
    ensures dropped == Filter(scoped, c => !Locates(locate, c))
    ensures forall l :: l in located ==> locate(l.candidate.chunkId) == Some(l.locator)
  {
    located, dropped := [], [];
    for i := 0 to |scoped|
      invariant CandidatesOf(located) == Filter(scoped[..i], c => Locates(locate, c))
      invariant dropped == Filter(scoped[..i], c => !Locates(locate, c))
      invariant forall l :: l in located ==> locate(l.candidate.chunkId) == Some(l.locator)
    {
      var c := scoped[i];
      assert scoped[..i + 1] == scoped[..i] + [c];
      FilterSnoc(scoped[..i], c, x => Locates(locate, x));
      FilterSnoc(scoped[..i], c, x => !Locates(locate, x));
      if Locates(locate, c) {
        located := located + [Located(c, locate(c.chunkId).value)];
      } else {
        dropped := dropped + [c];
      }
    }
    assert scoped[..|scoped|] == scoped;
  }

  // ----- deduplication -----

  function Key(l: Located): (string, seq<string>) {
    (l.locator.chunkId, l.candidate.relationPath)
  }

  predicate DistinctKeys(items: seq<Located>) {
    forall i, k :: 0 <= i < k < |items| ==> Key(items[i]) != Key(items[k])
  }

  /** `w` is the earliest of the best scored items with its key. */
  ghost predicate Wins(items: seq<Located>, w: Located) {
    exists at: nat :: WinsAt(items, w, at)
  }

  predicate WinsAt(items: seq<Located>, w: Located, at: nat) {
    && at < |items| && items[at] == w
    && forall i :: 0 <= i < |items| && Key(items[i]) == Key(w) ==>
         items[i].candidate.score <= w.candidate.score
         && (i < at ==> items[i].candidate.score < w.candidate.score)
  }

  predicate HasKey(items: seq<Located>, l: Located) {
    exists i :: 0 <= i < |items| && Key(items[i]) == Key(l)
  }

  method Find(items: seq<Located>, l: Located) returns (at: nat)
    ensures at <= |items|
    ensures at < |items| ==> Key(items[at]) == Key(l)
    ensures at == |items| <==> !HasKey(items, l)
  {
    at := 0;
    while at < |items| && Key(items[at]) != Key(l)
      invariant at <= |items|
      invariant forall i :: 0 <= i < at ==> Key(items[i]) != Key(l)
    {
      at := at + 1;
    }
  }

  lemma WinsAppend(items: seq<Located>, x: Located, w: Located)
    requires Wins(items, w) && (Key(w) != Key(x) || x.candidate.score <= w.candidate.score)
    ensures Wins(items + [x], w)
  {
    var at: nat :| WinsAt(items, w, at);
    assert WinsAt(items + [x], w, at);
  }

  lemma LastWins(items: seq<Located>, x: Located)
    requires forall i :: 0 <= i < |items| && Key(items[i]) == Key(x) ==> items[i].candidate.score < x.candidate.score
    ensures Wins(items + [x], x)
  {
    assert WinsAt(items + [x], x, |items|);
  }

  /** Best per key so far: distinct keys, every key represented by its winner. */
  ghost predicate BestPerKey(items: seq<Located>, kept: seq<Located>) {
    && DistinctKeys(kept)
    && (forall l :: l in kept ==> Wins(items, l))
    && (forall l :: l in items ==> HasKey(kept, l))
  }

  lemma KeyBounded(items: seq<Located>, w: Located, l: Located)
    requires Wins(items, w) && l in items && Key(l) == Key(w)
    ensures l.candidate.score <= w.candidate.score
  {
  }

  method Place(items: seq<Located>, kept: seq<Located>, x: Located)
    returns (next: seq<Located>, dropped: seq<Candidate>)
    requires BestPerKey(items, kept)
    ensures BestPerKey(items + [x], next)
    ensures multiset(CandidatesOf(next)) + multiset(dropped) == multiset(CandidatesOf(kept)) + multiset{x.candidate}
  {
    hide *;
    var at := Find(kept, x);
    if at == |kept| {
      next, dropped := kept + [x], [];
      PlaceNew(items, kept, x);
      CandidatesSnoc(kept, x);
    } else if x.candidate.score > kept[at].candidate.score {
      next, dropped := kept[at := x], [kept[at].candidate];
      PlaceBetter(items, kept, x, at);
      CandidatesUpdate(kept, x, at);
    } else {
      next, dropped := kept, [x.candidate];
      PlaceWorse(items, kept, x, at);
    }
  }

  lemma CandidatesUpdate(kept: seq<Located>, x: Located, at: nat)
    requires at < |kept|
    ensures multiset(CandidatesOf(kept[at := x])) + multiset{kept[at].candidate} ==
            multiset(CandidatesOf(kept)) + multiset{x.candidate}
  {
    assert CandidatesOf(kept[at := x]) == CandidatesOf(kept)[at := x.candidate];
  }

  lemma PlaceNew(items: seq<Located>, kept: seq<Located>, x: Located)
    requires BestPerKey(items, kept) && !HasKey(kept, x)
    ensures BestPerKey(items + [x], kept + [x])
  {
    hide Wins;
    var next := kept + [x];
    forall i | 0 <= i < |items| ensures Key(items[i]) != Key(x) { assert items[i] in items; }
    LastWins(items, x);
    forall l | l in kept ensures Wins(items + [x], l) { WinsAppend(items, x, l); }
    assert next[|kept|] == x;
    forall l | l in items ensures HasKey(next, l) {
      var i :| 0 <= i < |kept| && Key(kept[i]) == Key(l);
      assert next[i] == kept[i];
    }
  }

  lemma PlaceBetter(items: seq<Located>, kept: seq<Located>, x: Located, at: nat)
    requires BestPerKey(items, kept) && at < |kept| && Key(kept[at]) == Key(x)
    requires x.candidate.score > kept[at].candidate.score
    ensures BestPerKey(items + [x], kept[at := x])
  {
    hide Wins;
    var next := kept[at := x];
    forall i | 0 <= i < |items| && Key(items[i]) == Key(x)
      ensures items[i].candidate.score < x.candidate.score
    {
      KeyBounded(items, kept[at], items[i]);
    }
    LastWins(items, x);
    forall l | l in next ensures Wins(items + [x], l) {
      var i :| 0 <= i < |next| && next[i] == l;
      if i != at { WinsAppend(items, x, kept[i]); }
    }
    assert next[at] == x;
    forall l | l in items ensures HasKey(next, l) {
      var i :| 0 <= i < |kept| && Key(kept[i]) == Key(l);
      assert Key(next[i]) == Key(l);
    }
  }

  lemma PlaceWorse(items: seq<Located>, kept: seq<Located>, x: Located, at: nat)
    requires BestPerKey(items, kept) && at < |kept| && Key(kept[at]) == Key(x)
    requires x.candidate.score <= kept[at].candidate.score
    ensures BestPerKey(items + [x], kept)
  {
    hide Wins;
    forall l | l in kept ensures Wins(items + [x], l) {
      var i :| 0 <= i < |kept| && kept[i] == l;
      WinsAppend(items, x, l);
    }
  }

  predicate SamePassage(a: Located, b: Located) {
    a.locator.chunkId == b.locator.chunkId && a.candidate.relationPath == b.candidate.relationPath
  }

  /** Every passage, told by its chunk and its relation path, is kept once, in the
      best scored form found. */
  ghost predicate BestPassages(items: seq<Located>, kept: seq<Located>) {
    && (forall l :: l in kept ==> l in items)
    && (forall i, k :: 0 <= i < k < |kept| ==> !SamePassage(kept[i], kept[k]))
    && forall l :: l in items ==> exists w :: w in kept && SamePassage(w, l) && w.candidate.score >= l.candidate.score
  }

  lemma BestPerPassage(items: seq<Located>, kept: seq<Located>)
    requires BestPerKey(items, kept)
    ensures BestPassages(items, kept)
  {
    hide HasKey, Wins;
    forall l | l in kept ensures l in items { WinnerIsItem(items, l); }
    forall i, k | 0 <= i < k < |kept| ensures !SamePassage(kept[i], kept[k]) {
      assert Key(kept[i]) != Key(kept[k]);
    }
    forall l | l in items
      ensures exists w :: w in kept && SamePassage(w, l) && w.candidate.score >= l.candidate.score
    {
      var w := KeptFor(kept, l);
      KeyBounded(items, w, l);
    }
  }

  lemma WinnerIsItem(items: seq<Located>, w: Located)
    requires Wins(items, w)
    ensures w in items
  {
  }

  lemma KeptFor(kept: seq<Located>, l: Located) returns (w: Located)
    requires HasKey(kept, l)
    ensures w in kept && Key(w) == Key(l)
  {
    var i :| 0 <= i < |kept| && Key(kept[i]) == Key(l);
    w := kept[i];
  }

  method Deduplicate(located: seq<Located>) returns (kept: seq<Located>, dropped: seq<Candidate>)
    ensures BestPerKey(located, kept) && BestPassages(located, kept)
    ensures Accounts(CandidatesOf(located), CandidatesOf(kept), dropped)
  {
    kept, dropped := [], [];
    for i := 0 to |located|
      invariant BestPerKey(located[..i], kept)
      invariant Accounts(CandidatesOf(located[..i]), CandidatesOf(kept), dropped)
    {
      assert located[..i + 1] == located[..i] + [located[i]];
      assert CandidatesOf(located[..i + 1]) == CandidatesOf(located[..i]) + [located[i].candidate];
      hide BestPerKey, BestPassages, Accounts;
      var next, lost := Place(located[..i], kept, located[i]);
      AccountsStep(CandidatesOf(located[..i]), CandidatesOf(kept), dropped,
                   located[i].candidate, CandidatesOf(next), lost);
      kept, dropped := next, dropped + lost;
    }
    assert located[..|located|] == located;
    BestPerPassage(located, kept);
  }

  // ----- document diversity -----

  /** By falling score, then by candidate id. */
  predicate Better(a: Located, b: Located) {
    a.candidate.score > b.candidate.score
    || (a.candidate.score == b.candidate.score && Ordering.StringLess(a.candidate.id, b.candidate.id))
  }

  predicate RankedBefore(a: Ranked, b: Ranked) {
    a.score > b.score
    || (a.score == b.score && Ordering.StringLess(a.item.candidate.id, b.item.candidate.id))
  }

  lemma StringLessWeak(a: string, b: string, c: string)
    requires Ordering.StringLess(a, c)
    ensures Ordering.StringLess(a, b) || Ordering.StringLess(b, c)
  {
    Ordering.StringLessTotal(a, b);
    if Ordering.StringLess(b, a) { Ordering.StringLessTransitive(b, a, c); }
  }

  lemma BetterIsWeakOrder()
    ensures Ordering.WeakOrder(Better)
    ensures Ordering.WeakOrder(RankedBefore)
  {
    forall a, b | Ordering.StringLess(a, b) ensures !Ordering.StringLess(b, a) {
      Ordering.StringLessTotal(a, b);
    }
    forall a: Located, b: Located, c: Located | Better(a, c) ensures Better(a, b) || Better(b, c) {
      if Ordering.StringLess(a.candidate.id, c.candidate.id) {
        StringLessWeak(a.candidate.id, b.candidate.id, c.candidate.id);
      }
    }
    forall a: Ranked, b: Ranked, c: Ranked | RankedBefore(a, c) ensures RankedBefore(a, b) || RankedBefore(b, c) {
      if Ordering.StringLess(a.item.candidate.id, c.item.candidate.id) {
        StringLessWeak(a.item.candidate.id, b.item.candidate.id, c.item.candidate.id);
      }
    }
  }

  function CountDocument(items: seq<Located>, document: string): nat {
    if items == [] then 0
    else CountDocument(items[..|items| - 1], document)
         + if items[|items| - 1].locator.documentId == document then 1 else 0
  }

  /** The first `limit` items of each document. */
  function FirstPerDocument(items: seq<Located>, limit: nat): seq<Located> {
    if items == [] then []
    else
      var last := items[|items| - 1];
      FirstPerDocument(items[..|items| - 1], limit)
      + if CountDocument(items[..|items| - 1], last.locator.documentId) < limit then [last] else []
  }

  /** Each document keeps as many items as it has, up to the limit. */
  lemma {:induction false} FirstPerDocumentCounts(items: seq<Located>, limit: nat, document: string)
    ensures CountDocument(FirstPerDocument(items, limit), document) ==
            if CountDocument(items, document) < limit then CountDocument(items, document) else limit
  {
    if items != [] {
      var front := FirstPerDocument(items[..|items| - 1], limit);
      FirstPerDocumentCounts(items[..|items| - 1], limit, document);
      assert (front + [items[|items| - 1]])[..|front|] == front;
      assert front + [] == front;
    }
  }

  lemma FirstPerDocumentSnoc(items: seq<Located>, x: Located, limit: nat)
    ensures FirstPerDocument(items + [x], limit) == FirstPerDocument(items, limit)
            + if CountDocument(items, x.locator.documentId) < limit then [x] else []
  {
    assert (items + [x])[..|items|] == items;
  }

  lemma CountDocumentSnoc(items: seq<Located>, x: Located)
    ensures forall d :: CountDocument(items + [x], d) == CountDocument(items, d) + if x.locator.documentId == d then 1 else 0
  {
    assert (items + [x])[..|items|] == items;
  }

  lemma NothingLimited(limit: nat)
    ensures FirstPerDocument([], limit) == [] && CandidatesOf([]) == [] && Accounts([], [], [])
    ensures forall d :: CountDocument([], d) == 0
  {
  }

  method LimitPerDocument(items: seq<Located>, limit: nat)
    returns (kept: seq<Located>, dropped: seq<Candidate>)
    ensures kept == FirstPerDocument(items, limit)
    ensures Accounts(CandidatesOf(items), CandidatesOf(kept), dropped)
  {
    hide *;
    kept, dropped := [], [];
    var counts: map<string, nat> := map[];
    NothingLimited(limit);
    assert items[..0] == [];
    for i := 0 to |items|
      invariant kept == FirstPerDocument(items[..i], limit)
      invariant Accounts(CandidatesOf(items[..i]), CandidatesOf(kept), dropped)
      invariant forall d :: (if d in counts then counts[d] else 0) == CountDocument(kept, d)
    {
      var x, document := items[i], items[i].locator.documentId;
      var used := if document in counts then counts[document] else 0;
      assert items[..i + 1] == items[..i] + [x];
      FirstPerDocumentSnoc(items[..i], x, limit);
      FirstPerDocumentCounts(items[..i], limit, document);
      CandidatesSnoc(items[..i], x);
      KeepOrDrop(CandidatesOf(items[..i]), CandidatesOf(kept), dropped, x.candidate);
      if used >= limit {
        dropped := dropped + [x.candidate];
      } else {
        CandidatesSnoc(kept, x);
        CountDocumentSnoc(kept, x);
        counts := counts[document := used + 1];
        kept := kept + [x];
      }
    }
    assert items[..|items|] == items;
  }

  lemma {:induction false} FirstPerDocumentMembers(items: seq<Located>, limit: nat)
    ensures forall l :: l in FirstPerDocument(items, limit) ==> l in items
  {
    if items != [] {
      FirstPerDocumentMembers(items[..|items| - 1], limit);
    }
  }

  /** What the limit drops of a document comes after everything it keeps of it. */
  lemma {:induction false} DroppedIsLater(items: seq<Located>, limit: nat, l: Located)
    requires l in items && l !in FirstPerDocument(items, limit)
    ensures CountDocument(FirstPerDocument(items, limit), l.locator.documentId) == limit
    ensures forall w :: w in FirstPerDocument(items, limit) && w.locator.documentId == l.locator.documentId ==>
              exists i, k :: 0 <= i < k < |items| && items[i] == w && items[k] == l
  {
    hide CountDocument, FirstPerDocument;
    var front, last := items[..|items| - 1], items[|items| - 1];
    assert items == front + [last];
    CountDocumentSnoc(front, last);
    FirstPerDocumentSnoc(front, last, limit);
    FirstPerDocumentCounts(items, limit, l.locator.documentId);
    FirstPerDocumentMembers(front, limit);
    if l in front {
      DroppedIsLater(front, limit, l);
      FirstPerDocumentCounts(front, limit, l.locator.documentId);
    }
    forall w | w in FirstPerDocument(items, limit) && w.locator.documentId == l.locator.documentId
      ensures exists i, k :: 0 <= i < k < |items| && items[i] == w && items[k] == l
    {
      assert w in FirstPerDocument(front, limit);
      if l in front {
        var i, k :| 0 <= i < k < |front| && front[i] == w && front[k] == l;
        assert items[i] == w && items[k] == l;
      } else {
        var i :| 0 <= i < |front| && front[i] == w;
        assert items[i] == w && items[|items| - 1] == l;
      }
    }
  }

  // ----- external sources -----

  datatype Request = Request(workspace: string, scopeVersion: int, topK: int)

  function SourceOf(resolver: Option<Resolver>, c: Candidate): Option<(string, string)> {
    if resolver.None? then None
    else match resolver.value(c)
      case None => None
      case Some(r) => Some((r.canonicalId, r.sourceLocator))
  }

  /** The candidate belongs to the request and its resolver answers for it. */
  predicate Resolves(request: Request, resolver: Option<Resolver>, c: Candidate) {
    && c.workspace == request.workspace && c.scopeVersion == request.scopeVersion
    && resolver.Some? && resolver.value(c).Some? && resolver.value(c).value.candidateId == c.id
  }

  predicate Confirms(resolver: Option<Resolver>, c: Candidate, digest: string -> string) {
    && resolver.Some? && resolver.value(c).Some?
    && var r := resolver.value(c).value;
    && r.content == c.content && digest(r.content) == r.contentHash
  }

  predicate SeenBefore(external: seq<Candidate>, request: Request, resolver: Option<Resolver>, source: Option<(string, string)>) {
    exists i :: 0 <= i < |external| && Resolves(request, resolver, external[i]) && SourceOf(resolver, external[i]) == source
  }

  /** An external candidate is admitted when it resolves, no earlier candidate
      resolved to the same source, and the source confirms its content. */
  predicate Admits(earlier: seq<Candidate>, request: Request, resolver: Option<Resolver>, digest: string -> string, c: Candidate) {
    && Resolves(request, resolver, c)
    && !SeenBefore(earlier, request, resolver, SourceOf(resolver, c))
    && Confirms(resolver, c, digest)
  }

  function Admitted(external: seq<Candidate>, request: Request, resolver: Option<Resolver>, digest: string -> string): seq<Candidate> {
    if external == [] then []
    else
      var n := |external| - 1;
      Admitted(external[..n], request, resolver, digest)
      + if Admits(external[..n], request, resolver, digest, external[n]) then [external[n]] else []
  }

  lemma AdmittedSnoc(external: seq<Candidate>, request: Request, resolver: Option<Resolver>, digest: string -> string, c: Candidate)
    ensures Admitted(external + [c], request, resolver, digest) == Admitted(external, request, resolver, digest)
            + if Admits(external, request, resolver, digest, c) then [c] else []
  {
    assert (external + [c])[..|external|] == external;
  }

  lemma SeenSnoc(external: seq<Candidate>, request: Request, resolver: Option<Resolver>, c: Candidate)
    ensures forall source :: SeenBefore(external + [c], request, resolver, source) <==>
              SeenBefore(external, request, resolver, source)
              || (Resolves(request, resolver, c) && source == SourceOf(resolver, c))
  {
    var all := external + [c];
    forall source
      ensures SeenBefore(all, request, resolver, source) <==>
              SeenBefore(external, request, resolver, source)
              || (Resolves(request, resolver, c) && source == SourceOf(resolver, c))
    {
      if SeenBefore(external, request, resolver, source) {
        var i :| 0 <= i < |external| && Resolves(request, resolver, external[i]) && SourceOf(resolver, external[i]) == source;
        assert all[i] == external[i];
      }
      if Resolves(request, resolver, c) && source == SourceOf(resolver, c) {
        assert all[|external|] == c;
      }
    }
  }

  lemma NothingAdmitted(request: Request, resolver: Option<Resolver>, digest: string -> string)
    ensures Admitted([], request, resolver, digest) == [] && Accounts([], [], [])
    ensures forall source :: !SeenBefore([], request, resolver, source)
  {
  }

  lemma AdmitsIff(earlier: seq<Candidate>, request: Request, resolver: Option<Resolver>, digest: string -> string, c: Candidate)
    ensures Admits(earlier, request, resolver, digest, c) <==>
              Resolves(request, resolver, c) && !SeenBefore(earlier, request, resolver, SourceOf(resolver, c))
              && Confirms(resolver, c, digest)
  {
  }

  method VerifyExternal(external: seq<Candidate>, request: Request, resolver: Option<Resolver>, digest: string -> string)
    returns (kept: seq<Candidate>, dropped: seq<Candidate>)
    ensures kept == Admitted(external, request, resolver, digest)
    ensures Accounts(external, kept, dropped)
  {
    hide *;
    kept, dropped := [], [];
    var seen: set<Option<(string, string)>> := {};
    NothingAdmitted(request, resolver, digest);
    assert external[..0] == [];
    for i := 0 to |external|
      invariant kept == Admitted(external[..i], request, resolver, digest)
      invariant Accounts(external[..i], kept, dropped)
      invariant forall source :: source in seen <==> SeenBefore(external[..i], request, resolver, source)
    {
      var c := external[i];
      assert external[..i + 1] == external[..i] + [c];
      SeenSnoc(external[..i], request, resolver, c);
      AdmittedSnoc(external[..i], request, resolver, digest, c);
      AdmitsIff(external[..i], request, resolver, digest, c);
      var source, admitted := SourceOf(resolver, c), false;
      if Resolves(request, resolver, c) && source !in seen {
        seen := seen + {source};
        admitted := Confirms(resolver, c, digest);
      }
      KeepOrDrop(external[..i], kept, dropped, c);
      if admitted {
        kept := kept + [c];
      } else {
        dropped := dropped + [c];
      }
    }
    assert external[..|external|] == external;
  }

  lemma {:induction false} AdmittedAt(external: seq<Candidate>, request: Request, resolver: Option<Resolver>, digest: string -> string)
    ensures forall c :: c in Admitted(external, request, resolver, digest) <==>
              exists i :: 0 <= i < |external| && external[i] == c && Admits(external[..i], request, resolver, digest, c)
  {
    if external != [] {
      var n := |external| - 1;
      var front := external[..n];
      AdmittedAt(front, request, resolver, digest);
      assert forall i :: 0 <= i <= n ==> front[..i] == external[..i];
    }
  }

  ghost predicate Represented(kept: seq<Candidate>, resolver: Option<Resolver>, source: Option<(string, string)>) {
    exists c :: c in kept && SourceOf(resolver, c) == source
  }

  ghost predicate FirstIsConfirmed(external: seq<Candidate>, request: Request, resolver: Option<Resolver>,
                                   digest: string -> string, source: Option<(string, string)>) {
    exists i :: 0 <= i < |external| && Resolves(request, resolver, external[i])
                && SourceOf(resolver, external[i]) == source
                && !SeenBefore(external[..i], request, resolver, source)
                && Confirms(resolver, external[i], digest)
  }

  /** A source is represented in the result exactly when the first candidate that
      resolved to it is confirmed: a stale first candidate hides later good ones. */
  lemma SourceRepresentedIff(external: seq<Candidate>, request: Request, resolver: Option<Resolver>,
                             digest: string -> string, source: Option<(string, string)>)
    ensures Represented(Admitted(external, request, resolver, digest), resolver, source)
            <==> FirstIsConfirmed(external, request, resolver, digest, source)
  {
    AdmittedAt(external, request, resolver, digest);
    if FirstIsConfirmed(external, request, resolver, digest, source) {
      var i :| 0 <= i < |external| && Resolves(request, resolver, external[i])
               && SourceOf(resolver, external[i]) == source
               && !SeenBefore(external[..i], request, resolver, source)
               && Confirms(resolver, external[i], digest);
      assert Admits(external[..i], request, resolver, digest, external[i]);
    }
  }

  /** What a resolver has to answer: for this candidate of this request, with its own
      content and the digest of that content. */
  predicate Answers(c: Candidate, r: Resolution, request: Request, digest: string -> string) {
    && c.workspace == request.workspace && c.scopeVersion == request.scopeVersion
    && r.candidateId == c.id && r.content == c.content && digest(r.content) == r.contentHash
  }

  lemma AnswersIff(c: Candidate, request: Request, resolver: Option<Resolver>, digest: string -> string)
    ensures Resolves(request, resolver, c) && Confirms(resolver, c, digest) <==>
              resolver.Some? && resolver.value(c).Some? && Answers(c, resolver.value(c).value, request, digest)
  {
  }

  /** A candidate with such an answer is admitted if no earlier one has an answer that
      names the same canonical id and source locator. */
  lemma FreshSourceAdmitted(external: seq<Candidate>, request: Request, resolver: Option<Resolver>,
                            digest: string -> string, i: nat)
    requires i < |external| && resolver.Some? && resolver.value(external[i]).Some?
    requires Answers(external[i], resolver.value(external[i]).value, request, digest)
    requires forall k :: 0 <= k < i && resolver.value(external[k]).Some? ==>
               var a, b := resolver.value(external[k]).value, resolver.value(external[i]).value;
               a.canonicalId != b.canonicalId || a.sourceLocator != b.sourceLocator
    ensures external[i] in Admitted(external, request, resolver, digest)
  {
    hide Admitted, Resolves, Confirms, Answers;
    AdmittedAt(external, request, resolver, digest);
    AnswersIff(external[i], request, resolver, digest);
    forall k | 0 <= k < i && Resolves(request, resolver, external[k])
      ensures SourceOf(resolver, external[k]) != SourceOf(resolver, external[i])
    {
      ResolvesAnswers(request, resolver, external[k]);
    }
    assert !SeenBefore(external[..i], request, resolver, SourceOf(resolver, external[i]));
  }

  lemma ResolvesAnswers(request: Request, resolver: Option<Resolver>, c: Candidate)
    requires Resolves(request, resolver, c)
    ensures resolver.Some? && resolver.value(c).Some?
  {
  }

  const FOUND: Candidate := Candidate("b", "w", 1, "text", 1.0, None, None, None, "", [], true, 1.0)
  const STALE: Candidate := FOUND.(id := "a", content := "old text")
  const SAMPLE_REQUEST: Request := Request("w", 1, 10)

  /** One source with the text "text", whoever asks. */
  function SampleSource(c: Candidate): Option<Resolution> {
    Some(Resolution(c.id, "source", "doi:source", "text", "text"))
  }

  /** A stale candidate for a source before a good one hides it; behind it, it does
      not. */
  lemma StaleHidesGood()
    ensures var resolver: Option<Resolver>, digest := Some(SampleSource), (s: string) => s;
            && SourceOf(resolver, STALE) == SourceOf(resolver, FOUND) && Confirms(resolver, FOUND, digest)
            && Admitted([STALE, FOUND], SAMPLE_REQUEST, resolver, digest) == []
            && Admitted([FOUND, STALE], SAMPLE_REQUEST, resolver, digest) == [FOUND]
  {
    var resolver: Option<Resolver>, digest := Some(SampleSource), (s: string) => s;
    AdmitTwo(STALE, FOUND, resolver, digest);
    AdmitTwo(FOUND, STALE, resolver, digest);
    assert "old text"[0] != "text"[0];
  }

  lemma AdmitTwo(a: Candidate, b: Candidate, resolver: Option<Resolver>, digest: string -> string)
    requires Resolves(SAMPLE_REQUEST, resolver, a) && SourceOf(resolver, a) == SourceOf(resolver, b)
    ensures Admitted([a, b], SAMPLE_REQUEST, resolver, digest) == if Confirms(resolver, a, digest) then [a] else []
  {
    hide *;
    NothingAdmitted(SAMPLE_REQUEST, resolver, digest);
    AdmittedSnoc([], SAMPLE_REQUEST, resolver, digest, a);
    AdmittedSnoc([a], SAMPLE_REQUEST, resolver, digest, b);
    AdmitsIff([], SAMPLE_REQUEST, resolver, digest, a);
    AdmitsIff([a], SAMPLE_REQUEST, resolver, digest, b);
    SeenSnoc([], SAMPLE_REQUEST, resolver, a);
    assert [] + [a] == [a] && [a] + [b] == [a, b];
  }

  ghost predicate DistinctSources(kept: seq<Candidate>, resolver: Option<Resolver>) {
    forall i, k :: 0 <= i < k < |kept| ==> SourceOf(resolver, kept[i]) != SourceOf(resolver, kept[k])
  }

  /** Two admitted candidates never cite the same source. */
  lemma {:induction false} AdmittedSourcesDiffer(external: seq<Candidate>, request: Request, resolver: Option<Resolver>,
                                                 digest: string -> string)
    ensures DistinctSources(Admitted(external, request, resolver, digest), resolver)
  {
    if external != [] {
      var n := |external| - 1;
      AdmittedSourcesDiffer(external[..n], request, resolver, digest);
      AdmittedAt(external[..n], request, resolver, digest);
      forall c | c in Admitted(external[..n], request, resolver, digest)
                 && Admits(external[..n], request, resolver, digest, external[n])
        ensures SourceOf(resolver, c) != SourceOf(resolver, external[n])
      {
        var i :| 0 <= i < n && external[..n][i] == c && Admits(external[..n][..i], request, resolver, digest, c);
        assert Resolves(request, resolver, external[..n][i]);
      }
    }
  }
}
