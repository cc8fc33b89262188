/** Claim by claim validation of a drafted answer against the evidence bundle. */
module AnswerDrafts {
  import opened Wrappers
  import opened Sequences
  import opened Text
  import opened ContextBundles

  /** A field that is not of its declared type is None. */
  datatype Claim = Claim(id: Option<string>, text: Option<string>, sources: Option<seq<string>>)

  datatype Draft = Draft(answerable: bool, refusal: Option<string>, claims: seq<Claim>)

  datatype Citation = Citation(claimId: string, sourceId: string, item: EvidenceItem)

  datatype DraftIssue =
    | RefusalHasClaims | MissingRefusalReason | AnswerHasRefusalReason | MissingClaims
    | InvalidClaim | EmptyClaimId | DuplicateClaimId | EmptyClaimText | InvalidSourceIds
    | ClaimWithoutCitation | DuplicateClaimSource | EmptySourceId | UnknownSourceId

  datatype Report = Report(valid: bool, issues: seq<DraftIssue>, citations: seq<Citation>)

  // ----- what an acceptable draft is -----

  /** The last item with the id, as in a dictionary built from the list. */
  function Lookup(evidence: seq<EvidenceItem>, id: string): (r: Option<EvidenceItem>)
    ensures r.None? <==> forall k :: 0 <= k < |evidence| ==> evidence[k].sourceId != id
    ensures r.Some? ==> r.value in evidence && r.value.sourceId == id
    ensures r.Some? ==> exists k :: 0 <= k < |evidence| && evidence[k] == r.value
                                    && forall j :: k < j < |evidence| ==> evidence[j].sourceId != id
  {
    if evidence == [] then None
    else if evidence[|evidence| - 1].sourceId == id then Some(evidence[|evidence| - 1])
    else Lookup(evidence[..|evidence| - 1], id)
  }

  predicate Citable(evidence: seq<EvidenceItem>, source: string) {
    Strip(source) != "" && Lookup(evidence, Strip(source)).Some?
  }

  function ClaimId(c: Claim): string {
    if c.id.Some? then Strip(c.id.value) else ""
  }

  predicate Supported(evidence: seq<EvidenceItem>, c: Claim) {
    && c.id.Some? && c.text.Some? && c.sources.Some?
    && ClaimId(c) != "" && !Blank(c.text.value)
    && c.sources.value != [] && NoRepeats(c.sources.value)
    && forall k :: 0 <= k < |c.sources.value| ==> Citable(evidence, c.sources.value[k])
  }

  predicate SupportedClaims(evidence: seq<EvidenceItem>, claims: seq<Claim>) {
    && (forall k :: 0 <= k < |claims| ==> Supported(evidence, claims[k]))
    && (forall i, k :: 0 <= i < k < |claims| ==> ClaimId(claims[i]) != ClaimId(claims[k]))
  }

  predicate NoReason(d: Draft) {
    d.refusal.None? || Blank(d.refusal.value)
  }

  /** A refusal with a reason and nothing else, or claims that each cite the bundle. */
  predicate Acceptable(d: Draft, evidence: seq<EvidenceItem>) {
    if d.answerable then NoReason(d) && d.claims != [] && SupportedClaims(evidence, d.claims)
    else d.claims == [] && !NoReason(d)
  }

  function Cite(evidence: seq<EvidenceItem>, claimId: string, sources: seq<string>): seq<Citation> {
    if sources == [] then []
    else
      var id := Strip(sources[|sources| - 1]);
      Cite(evidence, claimId, sources[..|sources| - 1])
      + match Lookup(evidence, id)
        case Some(item) => if id == "" then [] else [Citation(claimId, id, item)]
        case None => []
  }

  function Citations(evidence: seq<EvidenceItem>, claims: seq<Claim>): seq<Citation> {
    if claims == [] then []
    else
      var c := claims[|claims| - 1];
      Citations(evidence, claims[..|claims| - 1])
      + if c.sources.Some? then Cite(evidence, ClaimId(c), c.sources.value) else []
  }

  // ----- the validator -----

  lemma CiteSnoc(evidence: seq<EvidenceItem>, claimId: string, sources: seq<string>, source: string)
    ensures Citable(evidence, source) <==> Strip(source) != "" && Lookup(evidence, Strip(source)).Some?
    ensures Cite(evidence, claimId, sources + [source]) == Cite(evidence, claimId, sources) +
              if Citable(evidence, source) then [Citation(claimId, Strip(source), Lookup(evidence, Strip(source)).value)] else []
  {
    hide Strip, Lookup;
    assert (sources + [source])[..|sources|] == sources;
  }

  lemma CiteNone(evidence: seq<EvidenceItem>, claimId: string)
    ensures Cite(evidence, claimId, []) == []
  {
  }

  method ValidateSources(sources: seq<string>, claimId: string, evidence: seq<EvidenceItem>)
    returns (issues: seq<DraftIssue>, citations: seq<Citation>)
    ensures issues == [] <==> forall k :: 0 <= k < |sources| ==> Citable(evidence, sources[k])
    ensures citations == Cite(evidence, claimId, sources)
  {
    hide *;
    issues, citations := [], [];
    CiteNone(evidence, claimId);
    assert sources[..0] == [];
    for i := 0 to |sources|
      invariant issues == [] <==> forall k :: 0 <= k < i ==> Citable(evidence, sources[k])
      invariant citations == Cite(evidence, claimId, sources[..i])
    {
      CiteSnoc(evidence, claimId, sources[..i], sources[i]);
      assert sources[..i + 1] == sources[..i] + [sources[i]];
      var id := Strip(sources[i]);
      var item := Lookup(evidence, id);
      if id == "" {
        issues := issues + [EmptySourceId];
      } else if item.None? {
        issues := issues + [UnknownSourceId];
      } else {
        citations := citations + [Citation(claimId, id, item.value)];
      }
    }
    assert sources[..|sources|] == sources;
  }

  /** One claim: `seen` holds the claim ids met so far. */
  method ValidateClaim(c: Claim, evidence: seq<EvidenceItem>, seen: set<string>)
    returns (issues: seq<DraftIssue>, citations: seq<Citation>, met: set<string>)
    ensures issues == [] <==> Supported(evidence, c) && ClaimId(c) !in seen
    ensures issues == [] ==> met == seen + {ClaimId(c)}
    ensures issues == [] ==> citations == Cite(evidence, ClaimId(c), c.sources.value)
  {
    hide Strip, Blank, Citable, Cite, NoRepeats;
    issues, citations, met := [], [], seen;
    if c.id.None? || c.text.None? { return [InvalidClaim], citations, met; }
    var id := ClaimId(c);
    if id == "" {
      issues := issues + [EmptyClaimId];
    } else if id in seen {
      issues := issues + [DuplicateClaimId];
    } else {
      met := seen + {id};
    }
    if Blank(c.text.value) { issues := issues + [EmptyClaimText]; }
    if c.sources.None? { return issues + [InvalidSourceIds], citations, met; }
    if c.sources.value == [] { return issues + [ClaimWithoutCitation], citations, met; }
    if !NoRepeats(c.sources.value) { issues := issues + [DuplicateClaimSource]; }
    var rest;
    rest, citations := ValidateSources(c.sources.value, id, evidence);
    issues := issues + rest;
  }

  lemma NoReasonIff(d: Draft)
    ensures NoReason(d) <==> d.refusal == None || Blank(d.refusal.value)
  {
  }

  lemma AcceptableIff(d: Draft, evidence: seq<EvidenceItem>)
    ensures Acceptable(d, evidence) <==>
              if d.answerable then NoReason(d) && d.claims != [] && SupportedClaims(evidence, d.claims)
              else d.claims == [] && !NoReason(d)
  {
  }

  lemma NoCitations(evidence: seq<EvidenceItem>)
    ensures Citations(evidence, []) == [] && SupportedClaims(evidence, [])
  {
  }

  lemma CitationsSnoc(evidence: seq<EvidenceItem>, claims: seq<Claim>, c: Claim)
    ensures Citations(evidence, claims + [c]) == Citations(evidence, claims) +
              if c.sources.Some? then Cite(evidence, ClaimId(c), c.sources.value) else []
  {
    hide Cite, ClaimId;
    assert (claims + [c])[..|claims|] == claims;
  }

  method ValidateAnswerDraft(d: Draft, evidence: seq<EvidenceItem>) returns (r: Report)
    ensures r.valid <==> Acceptable(d, evidence)
    ensures r.valid <==> r.issues == []
    ensures !d.answerable ==> (r.valid <==> d.claims == [] && d.refusal.Some? && !Blank(d.refusal.value))
    ensures d.answerable && r.valid ==> d.claims != [] && (d.refusal == None || Blank(d.refusal.value))
    ensures r.citations == if r.valid then Citations(evidence, d.claims) else []
  {
    hide *;
    AcceptableIff(d, evidence);
    NoReasonIff(d);
    NoCitations(evidence);
    var issues: seq<DraftIssue> := [];
    if !d.answerable {
      if d.claims != [] { issues := issues + [RefusalHasClaims]; }
      if NoReason(d) { issues := issues + [MissingRefusalReason]; }
      return Report(issues == [], issues, []);
    }
    if !NoReason(d) { issues := issues + [AnswerHasRefusalReason]; }
    if d.claims == [] { issues := issues + [MissingClaims]; }
    var citations: seq<Citation> := [];
    var seen: set<string> := {};
    assert d.claims[..0] == [];
    for i := 0 to |d.claims|
      invariant issues == [] <==> NoReason(d) && d.claims != [] && SupportedClaims(evidence, d.claims[..i])
      invariant issues == [] ==> forall id :: id in seen <==> exists k :: 0 <= k < i && ClaimId(d.claims[k]) == id
      invariant issues == [] ==> citations == Citations(evidence, d.claims[..i])
    {
      var found, cited, met := ValidateClaim(d.claims[i], evidence, seen);
      SupportedSnoc(evidence, d.claims[..i], d.claims[i]);
      CitationsSnoc(evidence, d.claims[..i], d.claims[i]);
      SupportedCites(evidence, d.claims[i]);
      assert d.claims[..i + 1] == d.claims[..i] + [d.claims[i]];
      issues, citations, seen := issues + found, citations + cited, met;
    }
    assert d.claims[..|d.claims|] == d.claims;
    r := Report(issues == [], issues, if issues != [] then [] else citations);
  }

  lemma SupportedSnoc(evidence: seq<EvidenceItem>, claims: seq<Claim>, c: Claim)
    ensures SupportedClaims(evidence, claims + [c]) <==>
              SupportedClaims(evidence, claims) && Supported(evidence, c)
              && forall k :: 0 <= k < |claims| ==> ClaimId(claims[k]) != ClaimId(c)
  {
    hide Supported, ClaimId;
    var all := claims + [c];
    assert all[|claims|] == c;
    assert forall k :: 0 <= k < |claims| ==> all[k] == claims[k];
  }

  // ----- what acceptance gives the reader -----

  lemma {:induction false} CiteResolves(evidence: seq<EvidenceItem>, claimId: string, sources: seq<string>)
    ensures forall x :: x in Cite(evidence, claimId, sources) ==>
              x.claimId == claimId && x.item in evidence && x.item.sourceId == x.sourceId
    ensures (forall k :: 0 <= k < |sources| ==> Citable(evidence, sources[k])) ==>
              |Cite(evidence, claimId, sources)| == |sources|
  {
    hide Strip, Lookup, Cite, Citable;
    if sources == [] {
      CiteNone(evidence, claimId);
    } else {
      var front, last := sources[..|sources| - 1], sources[|sources| - 1];
      assert sources == front + [last];
      CiteResolves(evidence, claimId, front);
      CiteSnoc(evidence, claimId, front, last);
    }
  }

  lemma SupportedCites(evidence: seq<EvidenceItem>, c: Claim)
    ensures Supported(evidence, c) ==>
              c.sources.Some? && c.sources.value != [] && |Cite(evidence, ClaimId(c), c.sources.value)| == |c.sources.value|
  {
    hide Strip, Citable, Blank, Cite;
    if Supported(evidence, c) { CiteResolves(evidence, ClaimId(c), c.sources.value); }
  }

  ghost predicate Cited(citations: seq<Citation>, claimId: string) {
    exists k :: 0 <= k < |citations| && citations[k].claimId == claimId
  }

  /** The claim ids are given and differ once stripped. */
  lemma SupportedIds(evidence: seq<EvidenceItem>, claims: seq<Claim>)
    requires SupportedClaims(evidence, claims)
    ensures forall k :: 0 <= k < |claims| ==>
              && claims[k].id.Some? && Strip(claims[k].id.value) != ""
              && ClaimId(claims[k]) == Strip(claims[k].id.value)
    ensures forall i, k :: 0 <= i < k < |claims| ==> Strip(claims[i].id.value) != Strip(claims[k].id.value)
  {
    hide Strip, Citable, Blank, NoRepeats;
    forall k | 0 <= k < |claims|
      ensures && claims[k].id.Some? && Strip(claims[k].id.value) != ""
              && ClaimId(claims[k]) == Strip(claims[k].id.value)
    {
      assert Supported(evidence, claims[k]);
    }
  }

  /** Every citation of an accepted answer names an item of the bundle, and every
      claim is cited under its stripped id, no two claims under the same. */
  lemma CitationsResolve(evidence: seq<EvidenceItem>, claims: seq<Claim>)
    requires SupportedClaims(evidence, claims)
    ensures forall x :: x in Citations(evidence, claims) ==> x.item in evidence && x.item.sourceId == x.sourceId
    ensures forall k :: 0 <= k < |claims| ==>
              claims[k].id.Some? && Cited(Citations(evidence, claims), Strip(claims[k].id.value))
    ensures forall i, k :: 0 <= i < k < |claims| ==> Strip(claims[i].id.value) != Strip(claims[k].id.value)
  {
    hide *;
    SupportedIds(evidence, claims);
    ClaimsAreCited(evidence, claims);
  }

  lemma {:induction false} ClaimsAreCited(evidence: seq<EvidenceItem>, claims: seq<Claim>)
    requires SupportedClaims(evidence, claims)
    ensures forall x :: x in Citations(evidence, claims) ==> x.item in evidence && x.item.sourceId == x.sourceId
    ensures forall k :: 0 <= k < |claims| ==> Cited(Citations(evidence, claims), ClaimId(claims[k]))
  {
    hide *;
    NoCitations(evidence);
    if claims != [] {
      var n := |claims| - 1;
      var c := claims[n];
      assert claims == claims[..n] + [c];
      SupportedSnoc(evidence, claims[..n], c);
      ClaimsAreCited(evidence, claims[..n]);
      CitationsSnoc(evidence, claims[..n], c);
      SupportedCites(evidence, c);
      var own := Cite(evidence, ClaimId(c), c.sources.value);
      CiteResolves(evidence, ClaimId(c), c.sources.value);
      assert own[0] in own;
      CitedJoin(Citations(evidence, claims[..n]), own);
    }
  }

  lemma CitedJoin(a: seq<Citation>, b: seq<Citation>)
    ensures forall id :: Cited(a, id) ==> Cited(a + b, id)
    ensures b != [] ==> Cited(a + b, b[0].claimId)
  {
    forall id | Cited(a, id) ensures Cited(a + b, id) {
      var k :| 0 <= k < |a| && a[k].claimId == id;
      assert (a + b)[k] == a[k];
    }
    if b != [] { assert (a + b)[|a|] == b[0]; }
  }

  // ----- when a source is cited twice -----

  function CitedIds(citations: seq<Citation>): seq<string> {
    Map(citations, (x: Citation) => x.sourceId)
  }

  function StrippedIds(sources: seq<string>): seq<string> {
    Map(sources, (s: string) => Strip(s))
  }

  lemma {:induction false} CitedIdsAre(evidence: seq<EvidenceItem>, claimId: string, sources: seq<string>)
    requires forall k :: 0 <= k < |sources| ==> Citable(evidence, sources[k])
    ensures CitedIds(Cite(evidence, claimId, sources)) == StrippedIds(sources)
  {
    hide Strip, Lookup, Cite, Citable;
    if sources == [] {
      CiteNone(evidence, claimId);
    } else {
      var front, last := sources[..|sources| - 1], sources[|sources| - 1];
      assert sources == front + [last];
      CitedIdsAre(evidence, claimId, front);
      CiteSnoc(evidence, claimId, front, last);
    }
  }

  /** An accepted claim cites no source twice exactly when its source ids still
      differ after stripping. */
  lemma CitesOnceIff(evidence: seq<EvidenceItem>, c: Claim)
    requires Supported(evidence, c)
    ensures NoRepeats(CitedIds(Cite(evidence, ClaimId(c), c.sources.value))) <==> NoRepeats(StrippedIds(c.sources.value))
  {
    hide Strip, Lookup, Cite, Citable, Blank;
    CitedIdsAre(evidence, ClaimId(c), c.sources.value);
  }

  /** Ids without surrounding white space never repeat in this way. */
  lemma TightIdsCiteOnce(evidence: seq<EvidenceItem>, c: Claim)
    requires Supported(evidence, c) && forall s :: s in c.sources.value ==> Strip(s) == s
    ensures NoRepeats(CitedIds(Cite(evidence, ClaimId(c), c.sources.value)))
  {
    hide Strip, Lookup, Cite, Citable, Blank;
    CitesOnceIff(evidence, c);
    assert StrippedIds(c.sources.value) == c.sources.value;
  }

  /** Repeated sources are compared before they are stripped, so an accepted claim
      can cite one source twice. */
  lemma PaddedSourceRepeats(item: EvidenceItem)
    requires item.sourceId == "S1"
    ensures var d := Draft(true, None, [Claim(Some("c"), Some("t"), Some(["S1", "S1 "]))]);
            && Acceptable(d, [item])
            && Citations([item], d.claims) == [Citation("c", "S1", item), Citation("c", "S1", item)]
  {
    hide Strip, Citations, Cite, Lookup, Blank;
    var c := Claim(Some("c"), Some("t"), Some(["S1", "S1 "]));
    PaddedCites(item);
    PaddedSupported(item, c);
    CitationsSnoc([item], [], c);
    assert [] + [c] == [c];
    NoCitations([item]);
    StripsTo();
  }

  lemma PaddedCites(item: EvidenceItem)
    requires item.sourceId == "S1"
    ensures Citable([item], "S1") && Citable([item], "S1 ")
    ensures Cite([item], "c", ["S1", "S1 "]) == [Citation("c", "S1", item), Citation("c", "S1", item)]
  {
    hide *;
    StripsTo();
    OnlyItem(item);
    CiteNone([item], "c");
    CiteSnoc([item], "c", [], "S1");
    CiteSnoc([item], "c", ["S1"], "S1 ");
    assert ["S1"] + ["S1 "] == ["S1", "S1 "] && [] + ["S1"] == ["S1"];
  }

  lemma OnlyItem(item: EvidenceItem)
    ensures Lookup([item], item.sourceId) == Some(item)
  {
  }

  lemma PaddedSupported(item: EvidenceItem, c: Claim)
    requires item.sourceId == "S1" && c == Claim(Some("c"), Some("t"), Some(["S1", "S1 "]))
    ensures Supported([item], c) && ClaimId(c) == "c"
  {
    hide Strip, Citable, IsSpace;
    StripsTo();
    PaddedCites(item);
    Inks();
    assert c.text.value[0] == 't' && 't' in c.text.value;
    assert |"S1"| != |"S1 "|;
    assert NoRepeats(c.sources.value);
  }

  lemma StripsTo()
    ensures Strip("S1") == "S1" && Strip("S1 ") == "S1" && Strip("c") == "c"
  {
    hide *;
    Inks();
    TightStrips("S1");
    TightStrips("c");
    assert "S1" + " " == "S1 ";
  }

  lemma Inks()
    ensures !IsSpace('S') && !IsSpace('1') && !IsSpace('c') && !IsSpace('t') && IsSpace(' ')
  {
  }

  lemma TightStrips(s: string)
    requires s != [] && !IsSpace(s[0]) && !IsSpace(s[|s| - 1])
    ensures Strip(s) == s && (IsSpace(' ') ==> Strip(s + " ") == s)
  {
    hide IsSpace;
    assert (s + " ")[..|s|] == s;
  }
}
