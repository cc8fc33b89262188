/** Evidence items, their serialised form, and the bundle validator. */
module ContextBundles {
  import opened Text
  import opened Tokenization
  import opened TokenCounting

  datatype EvidenceItem = EvidenceItem(
    sourceId: string,
    web: bool,
    chunkId: string,
    workId: string,
    documentId: string,
    title: string,
    sectionPath: seq<string>,
    pageStart: int,
    pageEnd: int,
    blockIds: seq<string>,
    content: string,
    truncated: bool,
    tokenCount: nat,
    canonicalId: string,
    sourceLocator: string,
    locatorType: string)

  datatype ContextBundle = ContextBundle(
    query: string,
    retrievalMode: string,
    evidence: seq<EvidenceItem>,
    contextText: string,
    tokenBudget: int,
    tokenCount: int)

  // ----- numbers as text -----

  const DIGITS: string := "0123456789"

  function Decimal(n: nat): (r: string)
    ensures r != [] && (forall c :: c in r ==> '0' <= c <= '9') && (n > 0 ==> r[0] != '0')
  {
    if n < 10 then [DIGITS[n]] else Decimal(n / 10) + [DIGITS[n % 10]]
  }

  function IntText(i: int): string {
    if i < 0 then "-" + Decimal(-i) else Decimal(i)
  }

  function SourceId(n: nat): string {
    "S" + Decimal(n)
  }

  lemma {:induction false} DecimalInjective(m: nat, n: nat)
    requires Decimal(m) == Decimal(n)
    ensures m == n
  {
    if m >= 10 && n >= 10 {
      var a, b := Decimal(m / 10), Decimal(n / 10);
      assert Decimal(m)[..|a|] == a && Decimal(n)[..|b|] == b;
      assert Decimal(m)[|a|] == DIGITS[m % 10] && Decimal(n)[|b|] == DIGITS[n % 10];
      assert a == b;
      DecimalInjective(m / 10, n / 10);
    }
  }

  /** The number a digit string stands for. */
  function ValueOf(s: string): int {
    if s == [] then 0 else 10 * ValueOf(s[..|s| - 1]) + (s[|s| - 1] as int - '0' as int)
  }

  lemma {:induction false} DecimalReadsBack(n: nat)
    ensures ValueOf(Decimal(n)) == n
  {
    if n < 10 {
      assert Decimal(n)[..0] == [];
    } else {
      DecimalReadsBack(n / 10);
      assert Decimal(n)[..|Decimal(n)| - 1] == Decimal(n / 10);
    }
  }

  /** A number in a header reads back as itself, its sign in front. */
  lemma IntReadsBack(i: int)
    ensures i >= 0 ==> ValueOf(IntText(i)) == i
    ensures i < 0 ==> IntText(i) != [] && IntText(i)[0] == '-' && ValueOf(IntText(i)[1..]) == -i
  {
    if i >= 0 {
      DecimalReadsBack(i);
    } else {
      DecimalReadsBack(-i);
      assert IntText(i)[1..] == Decimal(-i);
    }
  }

  lemma SourceIdInjective(m: nat, n: nat)
    requires SourceId(m) == SourceId(n)
    ensures m == n
  {
    assert SourceId(m)[1..] == Decimal(m) && SourceId(n)[1..] == Decimal(n);
    DecimalInjective(m, n);
  }

  /** `S[1-9][0-9]*`, matched against the whole string. */
  predicate IsSourceId(s: string) {
    && |s| >= 2 && s[0] == 'S' && '1' <= s[1] <= '9'
    && forall i :: 2 <= i < |s| ==> '0' <= s[i] <= '9'
  }

  lemma SourceIdMatches(n: nat)
    requires n >= 1
    ensures IsSourceId(SourceId(n))
  {
    var s, d := SourceId(n), Decimal(n);
    assert d[0] in d;
    forall i | 2 <= i < |s| ensures '0' <= s[i] <= '9' {
      assert s[i] == d[i - 1] && d[i - 1] in d;
    }
  }

  // ----- serialisation -----

  const SEPARATOR: string := "\n\n"
  const HEADER_END: string := "Evidence:\n"

  function HeaderOpen(item: EvidenceItem): string {
    "[" + item.sourceId + "]"
  }

  function Lines(item: EvidenceItem): seq<string> {
    if item.web then
      ["Title: " + item.title, "Source Type: WEB_LITERATURE", "Canonical ID: " + item.canonicalId,
       "Locator (" + (if item.locatorType == "" then "unknown" else item.locatorType) + "): " + item.sourceLocator]
    else
      ["Title: " + item.title, "Work ID: " + item.workId, "Document ID: " + item.documentId,
       "Section: " + (if Join(item.sectionPath, " > ") == "" then "Unsectioned" else Join(item.sectionPath, " > ")),
       "Pages: " + IntText(item.pageStart) + "-" + IntText(item.pageEnd),
       "Block IDs: " + Join(item.blockIds, ", ")]
  }

  function Metadata(item: EvidenceItem): string {
    "\n" + Join(Lines(item), "\n") + "\n"
  }

  function Header(item: EvidenceItem): string {
    HeaderOpen(item) + Metadata(item) + HEADER_END
  }

  function Render(item: EvidenceItem): string {
    Header(item) + item.content
  }

  /** A header's own text fences its tokens off on both sides, whatever the title
      or any other field contains. */
  lemma HeaderFences(item: EvidenceItem)
    requires IsSourceId(item.sourceId)
    ensures !FirstCjk(Header(item)) && !FirstCjk(Render(item))
    ensures Clean(Header(item)) && !LastCjk(Header(item))
  {
    hide Metadata, IsSourceId, FirstCjk, LastCjk, Clean;
    OpensWithWord(item.sourceId, "]" + Metadata(item) + HEADER_END);
    OpensWithWord(item.sourceId, "]" + Metadata(item) + HEADER_END + item.content);
    assert Header(item) == "[" + item.sourceId + ("]" + Metadata(item) + HEADER_END);
    assert Render(item) == "[" + item.sourceId + ("]" + Metadata(item) + HEADER_END + item.content);
    ClosesWithWord(HeaderOpen(item) + Metadata(item));
  }

  lemma OpensWithWord(id: string, rest: string)
    requires IsSourceId(id)
    ensures !FirstCjk("[" + id + rest)
  {
    var s := "[" + id + rest;
    assert s[0] == '[' && s[1..][0] == 'S';
  }

  lemma ClosesWithWord(front: string)
    ensures Clean(front + HEADER_END) && !LastCjk(front + HEADER_END)
  {
    var s := front + HEADER_END;
    assert s[|s| - 1] == '\n';
    LastCjkConcat(front, HEADER_END);
    assert HEADER_END[0] in HEADER_END;
    NoCjkLast(HEADER_END);
  }

  /** The count of a rendered item splits exactly at the end of its header. */
  lemma RenderCount(item: EvidenceItem)
    requires IsSourceId(item.sourceId)
    ensures TokenCount(Render(item)) == TokenCount(Header(item)) + TokenCount(item.content)
  {
    HeaderFences(item);
    CountConcat(Header(item), item.content);
    CountIsTokenCount(Render(item));
    CountIsTokenCount(Header(item));
    CountIsTokenCount(item.content);
  }

  function Rendered(evidence: seq<EvidenceItem>): (r: seq<string>)
    ensures |r| == |evidence|
  {
    if evidence == [] then []
    else Rendered(evidence[..|evidence| - 1]) + [Render(evidence[|evidence| - 1])]
  }

  lemma RenderedSnoc(evidence: seq<EvidenceItem>, item: EvidenceItem)
    ensures Rendered(evidence + [item]) == Rendered(evidence) + [Render(item)]
  {
    assert (evidence + [item])[..|evidence|] == evidence;
  }

  function ContextText(evidence: seq<EvidenceItem>): string {
    Join(Rendered(evidence), SEPARATOR)
  }

  lemma NothingRendered()
    ensures Rendered([]) == [] && TokenCount("") == 0
  {
    CountIsTokenCount("");
  }

  lemma SeparatorIsBlank()
    ensures Blank(SEPARATOR)
  {
  }

  /** The text grows at its end, by a blank line and the block. */
  lemma ContextTextGrows(evidence: seq<EvidenceItem>, item: EvidenceItem)
    ensures ContextText(evidence + [item]) ==
            if evidence == [] then Render(item) else ContextText(evidence) + "\n\n" + Render(item)
  {
    hide Render;
    RenderedSnoc(evidence, item);
    NothingRendered();
    if evidence != [] {
      assert (Rendered(evidence) + [Render(item)])[..|Rendered(evidence)|] == Rendered(evidence);
    }
  }

  /** Adding one rendered item adds exactly its own count to the whole text. */
  lemma ContextTextSnoc(evidence: seq<EvidenceItem>, item: EvidenceItem)
    requires IsSourceId(item.sourceId)
    ensures TokenCount(ContextText(evidence + [item])) == TokenCount(ContextText(evidence)) + TokenCount(Render(item))
  {
    hide TokenCount, Count, Header, Render, Rendered, LastCjk, FirstCjk, Clean, IsSourceId, Blank;
    RenderedSnoc(evidence, item);
    NothingRendered();
    var blocks, block := Rendered(evidence), Render(item);
    CountIsTokenCount(block);
    CountIsTokenCount(ContextText(evidence));
    CountIsTokenCount(ContextText(evidence + [item]));
    if evidence != [] {
      assert (blocks + [block])[..|blocks|] == blocks;
      HeaderFences(item);
      SeparatorIsBlank();
      CountSpaced(Join(blocks, SEPARATOR), SEPARATOR, block);
    }
  }

  predicate At(text: string, i: nat, part: string) {
    i + |part| <= |text| && text[i..i + |part|] == part
  }

  predicate Contains(text: string, part: string) {
    exists i: nat :: i <= |text| && At(text, i, part)
  }

  lemma ContainsTransitive(text: string, block: string, part: string)
    requires Contains(text, block) && Contains(block, part)
    ensures Contains(text, part)
  {
    var i: nat :| i <= |text| && At(text, i, block);
    var j: nat :| j <= |block| && At(block, j, part);
    forall k | 0 <= k < |part| ensures text[i + j + k] == part[k] {
      assert text[i + j + k] == text[i..i + |block|][j + k];
      assert block[j + k] == block[j..j + |part|][k];
    }
    assert text[i + j..i + j + |part|] == part;
    assert At(text, i + j, part);
  }

  lemma ContainsPad(left: string, part: string, right: string)
    ensures Contains(left + part + right, part)
  {
    assert At(left + part + right, |left|, part);
  }

  lemma {:induction false} JoinContains(parts: seq<string>, k: nat, sep: string)
    requires k < |parts|
    ensures Contains(Join(parts, sep), parts[k])
  {
    var last := |parts| - 1;
    if |parts| == 1 {
      assert At(parts[0], 0, parts[0]);
    } else if k == last {
      ContainsPad(Join(parts[..last], sep) + sep, parts[last], []);
      assert Join(parts[..last], sep) + sep + parts[last] + [] == Join(parts, sep);
    } else {
      JoinContains(parts[..last], k, sep);
      ContainsPad([], Join(parts[..last], sep), sep + parts[last]);
      assert [] + Join(parts[..last], sep) + (sep + parts[last]) == Join(parts, sep);
      ContainsTransitive(Join(parts, sep), Join(parts[..last], sep), parts[k]);
    }
  }

  lemma {:induction false} RenderedAt(evidence: seq<EvidenceItem>, k: nat)
    requires k < |evidence|
    ensures Rendered(evidence)[k] == Render(evidence[k])
  {
    if k < |evidence| - 1 {
      RenderedAt(evidence[..|evidence| - 1], k);
    }
  }

  /** Every item's bracketed id can be found in the text. */
  lemma SourceInText(evidence: seq<EvidenceItem>, k: nat)
    requires k < |evidence|
    ensures Contains(ContextText(evidence), HeaderOpen(evidence[k]))
  {
    RenderedAt(evidence, k);
    JoinContains(Rendered(evidence), k, SEPARATOR);
    OpensBlock(evidence[k]);
    ContainsTransitive(ContextText(evidence), Render(evidence[k]), HeaderOpen(evidence[k]));
  }

  lemma LineInHeader(item: EvidenceItem, k: nat)
    requires k < |Lines(item)|
    ensures Contains(Header(item), Lines(item)[k])
  {
    hide Contains, Lines, Join;
    JoinContains(Lines(item), k, "\n");
    ContainsPad(HeaderOpen(item) + "\n", Join(Lines(item), "\n"), "\n" + HEADER_END);
    assert HeaderOpen(item) + "\n" + Join(Lines(item), "\n") + ("\n" + HEADER_END) == Header(item);
    ContainsTransitive(Header(item), Join(Lines(item), "\n"), Lines(item)[k]);
  }

  /** The header names every field under its own label. */
  lemma HeaderShows(item: EvidenceItem)
    ensures Contains(Header(item), "Title: " + item.title)
    ensures item.web ==>
              && Contains(Header(item), "Canonical ID: " + item.canonicalId)
              && (item.locatorType != "" ==> Contains(Header(item), "Locator (" + item.locatorType + "): " + item.sourceLocator))
    ensures !item.web ==>
              && Contains(Header(item), "Work ID: " + item.workId)
              && Contains(Header(item), "Document ID: " + item.documentId)
              && (Join(item.sectionPath, " > ") == "" ==> Contains(Header(item), "Section: Unsectioned"))
              && (Join(item.sectionPath, " > ") != "" ==> Contains(Header(item), "Section: " + Join(item.sectionPath, " > ")))
              && Contains(Header(item), "Pages: " + IntText(item.pageStart) + "-" + IntText(item.pageEnd))
              && Contains(Header(item), "Block IDs: " + Join(item.blockIds, ", "))
  {
    hide Contains, Header, IntText, Join;
    var lines := Lines(item);
    assert |lines| == if item.web then 4 else 6;
    LineInHeader(item, 0);
    LineInHeader(item, 2);
    LineInHeader(item, 1);
    LineInHeader(item, 3);
    if !item.web {
      assert "Section: " + "Unsectioned" == "Section: Unsectioned";
      LineInHeader(item, 4);
      LineInHeader(item, 5);
    }
  }

  lemma OpensBlock(item: EvidenceItem)
    ensures Contains(Render(item), HeaderOpen(item))
  {
    hide Metadata, Contains;
    ContainsPad([], HeaderOpen(item), Metadata(item) + HEADER_END + item.content);
    assert [] + HeaderOpen(item) + (Metadata(item) + HEADER_END + item.content) == Render(item);
  }

  // ----- validation -----

  datatype Issue =
    | EmptyQuery | InvalidRetrievalMode | EmptyContext | EmptyContextText | InvalidTokenBudget
    | TokenCountMismatch | DuplicateSourceId
    | InvalidSourceMetadata(sourceId: string) | SourceMissingFromContextText(sourceId: string)

  predicate ValidMetadata(item: EvidenceItem) {
    if item.web then
      && item.canonicalId != "" && item.sourceLocator != ""
      && (item.locatorType == "ABSTRACT" || item.locatorType == "FULLTEXT_SPAN")
      && !Blank(item.content)
    else
      && IsSourceId(item.sourceId)
      && !Blank(item.chunkId) && !Blank(item.workId) && !Blank(item.documentId)
      && !Blank(item.title) && !Blank(item.content)
      && item.blockIds != [] && (forall id :: id in item.blockIds ==> !Blank(id))
      && 1 <= item.pageStart <= item.pageEnd
  }

  predicate DistinctIds(evidence: seq<EvidenceItem>) {
    forall i, k :: 0 <= i < k < |evidence| ==> evidence[i].sourceId != evidence[k].sourceId
  }

  predicate ItemOk(item: EvidenceItem, text: string) {
    ValidMetadata(item) && Contains(text, HeaderOpen(item))
  }

  predicate ValidBundle(b: ContextBundle) {
    && !Blank(b.query) && (b.retrievalMode == "fast" || b.retrievalMode == "accurate")
    && b.evidence != [] && !Blank(b.contextText)
    && 100 <= b.tokenBudget <= 100_000 && 0 <= b.tokenCount <= b.tokenBudget
    && b.tokenCount == TokenCount(b.contextText)
    && DistinctIds(b.evidence)
    && forall i :: 0 <= i < |b.evidence| ==> ItemOk(b.evidence[i], b.contextText)
  }

  /** What a reader needs to find the source: a work, a document, a title and pages,
      or a canonical id and a locator. */
  predicate Attributable(item: EvidenceItem) {
    && !Blank(item.content)
    && (item.web ==> item.canonicalId != "" && item.sourceLocator != "" && item.locatorType in {"ABSTRACT", "FULLTEXT_SPAN"})
    && (!item.web ==>
          && !Blank(item.chunkId) && !Blank(item.workId) && !Blank(item.documentId) && !Blank(item.title)
          && item.blockIds != [] && (forall id :: id in item.blockIds ==> !Blank(id))
          && IsSourceId(item.sourceId) && 1 <= item.pageStart <= item.pageEnd)
  }

  lemma ValidIsAttributable(b: ContextBundle)
    requires ValidBundle(b)
    ensures forall item :: item in b.evidence ==> Attributable(item) && Contains(b.contextText, "[" + item.sourceId + "]")
  {
    hide Blank, TokenCount, Contains, DistinctIds, IsSourceId;
    forall item | item in b.evidence
      ensures Attributable(item) && Contains(b.contextText, "[" + item.sourceId + "]")
    {
      var i :| 0 <= i < |b.evidence| && b.evidence[i] == item;
      assert ItemOk(b.evidence[i], b.contextText);
    }
  }

  /** The whole issue list of the validator is empty exactly for valid bundles. */
  method ValidateContextBundle(b: ContextBundle) returns (issues: seq<Issue>)
    ensures issues == [] <==> ValidBundle(b)
    ensures issues == [] ==>
              forall item :: item in b.evidence ==> Attributable(item) && Contains(b.contextText, "[" + item.sourceId + "]")
  {
    hide Attributable, Blank, TokenCount, Contains, ValidMetadata, SourceIds, DistinctIds;
    issues := [];
    if Blank(b.query) { issues := issues + [EmptyQuery]; }
    if b.retrievalMode != "fast" && b.retrievalMode != "accurate" { issues := issues + [InvalidRetrievalMode]; }
    if b.evidence == [] { issues := issues + [EmptyContext]; }
    if Blank(b.contextText) { issues := issues + [EmptyContextText]; }
    if b.tokenBudget < 100 || b.tokenBudget > 100_000 || b.tokenCount < 0 || b.tokenCount > b.tokenBudget {
      issues := issues + [InvalidTokenBudget];
    }
    if b.tokenCount != TokenCount(b.contextText) { issues := issues + [TokenCountMismatch]; }
    var ids := SourceIds(b.evidence);
    DistinctByCardinality(b.evidence);
    if |b.evidence| != |ids| { issues := issues + [DuplicateSourceId]; }
    var before := issues;
    for i := 0 to |b.evidence|
      invariant issues == [] <==> before == [] && forall k :: 0 <= k < i ==> ItemOk(b.evidence[k], b.contextText)
    {
      var item := b.evidence[i];
      if !ValidMetadata(item) { issues := issues + [InvalidSourceMetadata(item.sourceId)]; }
      if !Contains(b.contextText, HeaderOpen(item)) {
        issues := issues + [SourceMissingFromContextText(item.sourceId)];
      }
    }
    if issues == [] { ValidIsAttributable(b); }
  }

  function SourceIds(evidence: seq<EvidenceItem>): set<string> {
    set item | item in evidence :: item.sourceId
  }

  lemma SourceIdsSnoc(evidence: seq<EvidenceItem>, last: EvidenceItem)
    ensures SourceIds(evidence + [last]) == SourceIds(evidence) + {last.sourceId}
  {
    assert forall item :: item in evidence + [last] <==> item in evidence || item == last;
  }

  lemma DistinctIdsSnoc(evidence: seq<EvidenceItem>, last: EvidenceItem)
    ensures DistinctIds(evidence + [last]) <==> DistinctIds(evidence) && last.sourceId !in SourceIds(evidence)
  {
    var all := evidence + [last];
    assert forall i :: 0 <= i < |evidence| ==> all[i] == evidence[i] && evidence[i] in evidence;
    if last.sourceId in SourceIds(evidence) {
      var i :| 0 <= i < |evidence| && evidence[i].sourceId == last.sourceId;
      assert all[i].sourceId == all[|evidence|].sourceId;
    }
  }

  lemma SizeWith(ids: set<string>, id: string)
    ensures |ids + {id}| == |ids| + if id in ids then 0 else 1
  {
    if id in ids { assert ids + {id} == ids; }
  }

  /** Comparing the list length with the size of the id set finds duplicates. */
  lemma {:induction false} DistinctByCardinality(evidence: seq<EvidenceItem>)
    ensures |evidence| == |SourceIds(evidence)| <==> DistinctIds(evidence)
    ensures |SourceIds(evidence)| <= |evidence|
  {
    hide SourceIds, DistinctIds;
    if evidence == [] {
      NoIds();
    } else {
      var init, last := evidence[..|evidence| - 1], evidence[|evidence| - 1];
      assert evidence == init + [last];
      DistinctByCardinality(init);
      SourceIdsSnoc(init, last);
      DistinctIdsSnoc(init, last);
      SizeWith(SourceIds(init), last.sourceId);
    }
  }

  lemma NoIds()
    ensures SourceIds([]) == {} && DistinctIds([])
  {
  }
}
