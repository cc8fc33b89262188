/** Assembling an evidence bundle from ranked candidates, whatever their shape. */
module ContextAssembly {
  import opened Wrappers
  import opened Text
  import opened Tokenization
  import opened TokenCounting
  import opened Truncation
  import opened ContextBundles
  import opened Fingerprints
  import Splitting

  const MIN_CONTENT_TOKENS := 20

  /** A field of a candidate record: missing or null, a string, or some other
      value, with the text `str` gives for it. */
  datatype Field = Absent | Str(value: string) | Other(shown: string)

  /** An attached context record. A page is None unless it is an integer; a list
      is None unless it is a list. */
  datatype Context = Context(
    content: Field, workId: Field, documentId: Field,
    sectionPath: Option<seq<Field>>, blockIds: Option<seq<Field>>,
    pageStart: Option<int>, pageEnd: Option<int>)

  datatype Candidate = Candidate(
    web: bool,
    content: Field, chunkId: Field, workId: Field, documentId: Field, title: Field,
    canonicalId: Field, sourceLocator: Field, locatorType: Field,
    sectionPath: Option<seq<Field>>, blockIds: Option<seq<Field>>,
    pageStart: Option<int>, pageEnd: Option<int>,
    parentContexts: seq<Context>, overlapContext: Option<Context>)

  datatype Reason =
    | InvalidMetadata | DuplicateExternalSource | DuplicateChunk | DuplicateContent
    | DuplicateWorkDocumentVersion | PerWorkLimit | TokenBudgetExhausted

  /** `str(value or "")`. */
  function OrEmpty(f: Field): string {
    match f
    case Absent => ""
    case Str(value) => value
    case Other(shown) => shown
  }

  predicate IsText(f: Field) {
    f.Str? && !Blank(f.value)
  }

  // ----- string lists -----

  /** Insertion-ordered union, as `dict.fromkeys` gives it. */
  function AddNew(acc: seq<string>, xs: seq<string>): (r: seq<string>)
    ensures acc <= r
    ensures forall x :: x in r <==> x in acc || x in xs
    ensures Distinct(acc) ==> Distinct(r)
    decreases |xs|
  {
    if xs == [] then acc
    else if xs[0] in acc then AddNew(acc, xs[1..])
    else AddNew(acc + [xs[0]], xs[1..])
  }

  predicate Distinct(xs: seq<string>) {
    forall i, k :: 0 <= i < k < |xs| ==> xs[i] != xs[k]
  }

  function Texts(fields: seq<Field>): (r: seq<string>)
    ensures forall x :: x in r ==> !Blank(x)
  {
    if fields == [] then []
    else (if IsText(fields[0]) then StripKeepsInk(fields[0].value); [Strip(fields[0].value)] else [])
         + Texts(fields[1..])
  }

  lemma StripKeepsInk(s: string)
    requires !Blank(s)
    ensures !Blank(Strip(s))
  {
    assert Strip(s)[0] in Strip(s);
  }

  function StringList(value: Option<seq<Field>>): (r: seq<string>)
    ensures forall x :: x in r ==> !Blank(x)
    ensures Distinct(r)
  {
    if value == None then [] else AddNew([], Texts(value.value))
  }

  // ----- attached contexts -----

  predicate SameField(f: Field, id: string) {
    f == Absent || f == Str(id)
  }

  predicate Usable(c: Context, workId: string, documentId: string) {
    IsText(c.content) && SameField(c.workId, workId) && SameField(c.documentId, documentId)
  }

  datatype Labelled = Labelled(kind: string, context: Context)

  function Attached(candidate: Candidate): seq<Labelled> {
    seq(|candidate.parentContexts|,
        i requires 0 <= i < |candidate.parentContexts| => Labelled("Parent context", candidate.parentContexts[i]))
    + (if candidate.overlapContext == None then []
       else [Labelled("Previous same-section context", candidate.overlapContext.value)])
  }

  /** The contexts that are used: right source, text not seen before. */
  function Kept(contexts: seq<Labelled>, workId: string, documentId: string, seen: set<string>): (r: seq<Labelled>)
    ensures |r| <= |contexts|
  {
    if contexts == [] then []
    else
      var init, last := Kept(contexts[..|contexts| - 1], workId, documentId, seen), contexts[|contexts| - 1];
      if Usable(last.context, workId, documentId) && Print(last) !in seen && Print(last) !in Prints(init) then init + [last] else init
  }

  lemma {:induction false} KeptAreNew(contexts: seq<Labelled>, workId: string, documentId: string, seen: set<string>)
    ensures var r := Kept(contexts, workId, documentId, seen);
            && (forall l :: l in r ==> Usable(l.context, workId, documentId) && Print(l) !in seen)
            && (forall i, k :: 0 <= i < k < |r| ==> Print(r[i]) != Print(r[k]))
            && Prints(r) !! seen
  {
    hide Usable, Print;
    if contexts != [] {
      var init := Kept(contexts[..|contexts| - 1], workId, documentId, seen);
      KeptAreNew(contexts[..|contexts| - 1], workId, documentId, seen);
      forall i | 0 <= i < |init| ensures Print(init[i]) in Prints(init) {
        assert init[i] in init;
      }
    }
  }

  function Print(l: Labelled): string {
    Fingerprint(OrEmpty(l.context.content))
  }

  function Prints(kept: seq<Labelled>): set<string> {
    set l | l in kept :: Print(l)
  }

  lemma PrintsSnoc(kept: seq<Labelled>, l: Labelled)
    ensures Prints(kept + [l]) == Prints(kept) + {Print(l)}
  {
    hide Print;
    assert forall x :: x in kept + [l] <==> x in kept || x == l;
  }

  function Label(l: Labelled): string {
    var path := Join(StringList(l.context.sectionPath), " > ");
    "[" + l.kind + " | Section: " + (if path == "" then "Unsectioned" else path) + " | Pages: "
    + (if l.context.pageStart.Some? && l.context.pageEnd.Some?
       then IntText(l.context.pageStart.value) + "-" + IntText(l.context.pageEnd.value) else "unknown")
    + "]"
  }

  function PartOf(l: Labelled): string {
    Label(l) + "\n" + Strip(OrEmpty(l.context.content))
  }

  function PartsOf(kept: seq<Labelled>): seq<string> {
    if kept == [] then [] else PartsOf(kept[..|kept| - 1]) + [PartOf(kept[|kept| - 1])]
  }

  function PositivePage(page: Option<int>): seq<int> {
    if page.Some? && page.value > 0 then [page.value] else []
  }

  function PagesOf(kept: seq<Labelled>): (r: seq<int>)
    ensures forall page :: page in r ==> page >= 1
  {
    if kept == [] then []
    else
      var c := kept[|kept| - 1].context;
      PagesOf(kept[..|kept| - 1]) + PositivePage(c.pageStart) + PositivePage(c.pageEnd)
  }

  function BlocksOf(kept: seq<Labelled>): (r: seq<string>)
    ensures forall id :: id in r ==> !Blank(id)
  {
    if kept == [] then []
    else BlocksOf(kept[..|kept| - 1]) + StringList(kept[|kept| - 1].context.blockIds)
  }

  datatype Content = Content(text: string, blockIds: seq<string>, pages: seq<int>, prints: set<string>, omitted: nat)

  /** Every usable new context once, in order. */
  method CollectContexts(contexts: seq<Labelled>, workId: string, documentId: string, seen: set<string>)
    returns (parts: seq<string>, blocks: seq<string>, pages: seq<int>, prints: set<string>, omitted: nat)
    ensures var kept := Kept(contexts, workId, documentId, seen);
            && parts == PartsOf(kept) && blocks == BlocksOf(kept) && pages == PagesOf(kept) && prints == Prints(kept)
            && omitted + |kept| == |contexts|
  {
    hide Usable, Fingerprint, PartOf, StringList, PositivePage, Prints, Kept, PartsOf, BlocksOf, PagesOf;
    parts, blocks, pages, prints, omitted := [], [], [], {}, 0;
    ghost var kept: seq<Labelled> := [];
    NothingKept(workId, documentId, seen);
    assert contexts[..0] == [];
    for i := 0 to |contexts|
      invariant kept == Kept(contexts[..i], workId, documentId, seen)
      invariant parts == PartsOf(kept) && blocks == BlocksOf(kept) && pages == PagesOf(kept)
      invariant prints == Prints(kept)
      invariant omitted + |kept| == i
    {
      assert contexts[..i + 1] == contexts[..i] + [contexts[i]];
      KeptSnoc(contexts[..i], contexts[i], workId, documentId, seen);
      var context := contexts[i].context;
      if !Usable(context, workId, documentId) {
        omitted := omitted + 1;
        continue;
      }
      var fingerprint := Fingerprint(OrEmpty(context.content));
      if fingerprint in seen || fingerprint in prints {
        omitted := omitted + 1;
        continue;
      }
      PrintsSnoc(kept, contexts[i]);
      PartsSnoc(kept, contexts[i]);
      kept := kept + [contexts[i]];
      prints := prints + {fingerprint};
      parts := parts + [PartOf(contexts[i])];
      blocks := blocks + StringList(context.blockIds);
      pages := pages + PositivePage(context.pageStart) + PositivePage(context.pageEnd);
    }
    assert contexts[..|contexts|] == contexts;
  }

  lemma NothingKept(workId: string, documentId: string, seen: set<string>)
    ensures Kept([], workId, documentId, seen) == [] && Prints([]) == {}
    ensures PartsOf([]) == [] && BlocksOf([]) == [] && PagesOf([]) == []
  {
  }

  lemma KeptSnoc(contexts: seq<Labelled>, l: Labelled, workId: string, documentId: string, seen: set<string>)
    ensures var kept := Kept(contexts, workId, documentId, seen);
            Kept(contexts + [l], workId, documentId, seen) ==
              if Usable(l.context, workId, documentId) && Print(l) !in seen && Print(l) !in Prints(kept)
              then kept + [l] else kept
  {
    assert (contexts + [l])[..|contexts|] == contexts;
  }

  lemma PartsSnoc(kept: seq<Labelled>, l: Labelled)
    ensures PartsOf(kept + [l]) == PartsOf(kept) + [PartOf(l)]
    ensures BlocksOf(kept + [l]) == BlocksOf(kept) + StringList(l.context.blockIds)
    ensures PagesOf(kept + [l]) == PagesOf(kept) + PositivePage(l.context.pageStart) + PositivePage(l.context.pageEnd)
  {
    hide PartOf, StringList, PositivePage;
    assert (kept + [l])[..|kept|] == kept;
  }

  /** The evidence text: every usable new context once, then the primary content. */
  method CandidateContent(candidate: Candidate, workId: string, documentId: string, seen: set<string>)
    returns (r: Content)
    ensures var contexts := Attached(candidate);
            var kept := Kept(contexts, workId, documentId, seen);
            && r.text == Join(PartsOf(kept) + ["[Primary evidence]\n" + Strip(OrEmpty(candidate.content))], SEPARATOR)
            && r.blockIds == AddNew([], BlocksOf(kept)) && r.pages == PagesOf(kept)
            && r.prints == Prints(kept) && r.prints !! seen
            && r.omitted + |kept| == |contexts|
    ensures !Blank(r.text)
  {
    hide Usable, Fingerprint, PartOf, StringList, PositivePage, AddNew, Blank, Strip, Kept, PartsOf, BlocksOf, PagesOf;
    var contexts := Attached(candidate);
    var parts, blocks, pages, prints, omitted := CollectContexts(contexts, workId, documentId, seen);
    var primary := "[Primary evidence]\n" + Strip(OrEmpty(candidate.content));
    KeptAreNew(contexts, workId, documentId, seen);
    r := Content(Join(parts + [primary], SEPARATOR), AddNew([], blocks), pages, prints, omitted);
    JoinHasInk(parts, primary);
  }

  lemma JoinHasInk(parts: seq<string>, last: string)
    requires last != "" && !IsSpace(last[0])
    ensures !Blank(Join(parts + [last], SEPARATOR))
  {
    assert (parts + [last])[..|parts|] == parts;
    assert last[0] in last;
  }

  /** The parents in their order, then the overlap. */
  lemma AttachedAre(c: Candidate)
    ensures |Attached(c)| == |c.parentContexts| + if c.overlapContext.Some? then 1 else 0
    ensures forall i :: 0 <= i < |c.parentContexts| ==> Attached(c)[i] == Labelled("Parent context", c.parentContexts[i])
    ensures c.overlapContext.Some? ==>
              Attached(c)[|c.parentContexts|] == Labelled("Previous same-section context", c.overlapContext.value)
  {
  }

  /** What is kept names no other work or document, and has text. */
  lemma KeptAreOurs(contexts: seq<Labelled>, workId: string, documentId: string, seen: set<string>)
    ensures forall l :: l in Kept(contexts, workId, documentId, seen) ==>
              && l.context.content.Str? && !Blank(l.context.content.value)
              && l.context.workId in {Absent, Str(workId)} && l.context.documentId in {Absent, Str(documentId)}
  {
    hide Blank, Kept;
    KeptAreNew(contexts, workId, documentId, seen);
  }

  /** The pages are the positive ones of the kept contexts, the blocks theirs. */
  lemma {:induction false} PagesAre(kept: seq<Labelled>, page: int)
    ensures page in PagesOf(kept) <==>
            page >= 1 && exists l :: l in kept && (l.context.pageStart == Some(page) || l.context.pageEnd == Some(page))
  {
    if kept != [] {
      var init, last := kept[..|kept| - 1], kept[|kept| - 1];
      PagesAre(init, page);
      assert forall l :: l in kept <==> l in init || l == last;
    }
  }

  lemma {:induction false} BlocksAre(kept: seq<Labelled>, id: string)
    ensures id in BlocksOf(kept) <==> exists l :: l in kept && id in StringList(l.context.blockIds)
  {
    hide StringList;
    if kept != [] {
      var init, last := kept[..|kept| - 1], kept[|kept| - 1];
      BlocksAre(init, id);
      assert forall l :: l in kept <==> l in init || l == last;
    }
  }

  lemma {:induction false} PartsAre(kept: seq<Labelled>)
    ensures |PartsOf(kept)| == |kept|
    ensures forall i :: 0 <= i < |kept| ==> PartsOf(kept)[i] == PartOf(kept[i])
  {
    hide PartOf;
    if kept != [] { PartsAre(kept[..|kept| - 1]); }
  }

  lemma PartShows(l: Labelled)
    ensures Contains(PartOf(l), Strip(OrEmpty(l.context.content)))
  {
    hide Label, Strip, Contains;
    var text := Strip(OrEmpty(l.context.content));
    ContainsPad(Label(l) + "\n", text, []);
    assert PartOf(l) == Label(l) + "\n" + text + [];
  }

  /** How a context is announced: what it is, its section and its pages. */
  function SectionText(l: Labelled): string {
    var path := Join(StringList(l.context.sectionPath), " > ");
    "[" + l.kind + " | Section: " + (if path != "" then path else "Unsectioned") + " | Pages: "
  }

  function PagesText(l: Labelled): string {
    " | Pages: " + (Range(l.context.pageStart, l.context.pageEnd) + "]")
  }

  function Range(first: Option<int>, last: Option<int>): string {
    match (first, last)
    case (Some(a), Some(b)) => IntText(a) + "-" + IntText(b)
    case _ => "unknown"
  }

  lemma Overlapping(head: string, middle: string, tail: string, text: string)
    ensures Contains(head + middle + tail + text, head + middle)
    ensures Contains(head + middle + tail + text, middle + tail)
  {
    hide Contains;
    ContainsPad([], head + middle, tail + text);
    assert [] + (head + middle) + (tail + text) == head + middle + tail + text;
    ContainsPad(head, middle + tail, text);
    assert head + (middle + tail) + text == head + middle + tail + text;
  }

  lemma LabelIs(l: Labelled, path: string, head: string)
    requires path == Join(StringList(l.context.sectionPath), " > ")
    requires head == "[" + l.kind + " | Section: " + if path != "" then path else "Unsectioned"
    ensures Label(l) == head + " | Pages: " + (Range(l.context.pageStart, l.context.pageEnd) + "]")
    ensures SectionText(l) == head + " | Pages: "
  {
    hide StringList, Join, IntText;
    var range := Range(l.context.pageStart, l.context.pageEnd);
    assert Label(l) == head + " | Pages: " + range + "]";
    assert head + " | Pages: " + range + "]" == head + " | Pages: " + (range + "]");
  }

  lemma LabelShows(l: Labelled)
    ensures Contains(PartOf(l), SectionText(l)) && Contains(PartOf(l), PagesText(l))
  {
    hide Contains, Strip, StringList, Join, IntText, Label, SectionText, Range;
    var text := "\n" + Strip(OrEmpty(l.context.content));
    var path := Join(StringList(l.context.sectionPath), " > ");
    var head := "[" + l.kind + " | Section: " + if path != "" then path else "Unsectioned";
    LabelIs(l, path, head);
    assert PartOf(l) == Label(l) + text;
    Overlapping(head, " | Pages: ", Range(l.context.pageStart, l.context.pageEnd) + "]", text);
  }

  /** The evidence text shows every kept context, announced by its section and its
      pages, and the primary content. */
  lemma EvidenceTextShows(c: Candidate, kept: seq<Labelled>, k: nat)
    ensures Contains(EvidenceText(c, kept), Strip(OrEmpty(c.content)))
    ensures k < |kept| ==>
              && Contains(EvidenceText(c, kept), SectionText(kept[k])) && Contains(EvidenceText(c, kept), PagesText(kept[k]))
              && Contains(EvidenceText(c, kept), Strip(OrEmpty(kept[k].context.content)))
  {
    hide Strip, Contains, PartsOf, PartOf, Join, SectionText, PagesText;
    var primary := "[Primary evidence]\n" + Strip(OrEmpty(c.content));
    var parts := PartsOf(kept) + [primary];
    PartsAre(kept);
    JoinContains(parts, |kept|, SEPARATOR);
    ContainsPad("[Primary evidence]\n", Strip(OrEmpty(c.content)), []);
    assert "[Primary evidence]\n" + Strip(OrEmpty(c.content)) + [] == primary;
    ContainsTransitive(Join(parts, SEPARATOR), primary, Strip(OrEmpty(c.content)));
    if k < |kept| {
      JoinContains(parts, k, SEPARATOR);
      PartShows(kept[k]);
      LabelShows(kept[k]);
      ContainsTransitive(Join(parts, SEPARATOR), PartOf(kept[k]), SectionText(kept[k]));
      ContainsTransitive(Join(parts, SEPARATOR), PartOf(kept[k]), PagesText(kept[k]));
      ContainsTransitive(Join(parts, SEPARATOR), PartOf(kept[k]), Strip(OrEmpty(kept[k].context.content)));
    }
  }

  // ----- items -----

  function MinPage(pages: seq<int>): (r: int)
    requires pages != []
    ensures r in pages && forall i :: 0 <= i < |pages| ==> r <= pages[i]
  {
    if |pages| == 1 then pages[0]
    else
      var rest := MinPage(pages[1..]);
      assert forall i :: 1 <= i < |pages| ==> pages[i] == pages[1..][i - 1];
      if pages[0] <= rest then pages[0] else rest
  }

  function MaxPage(pages: seq<int>): (r: int)
    requires pages != []
    ensures r in pages && forall i :: 0 <= i < |pages| ==> pages[i] <= r
  {
    if |pages| == 1 then pages[0]
    else
      var rest := MaxPage(pages[1..]);
      assert forall i :: 1 <= i < |pages| ==> pages[i] == pages[1..][i - 1];
      if pages[0] >= rest then pages[0] else rest
  }

  function WebItem(c: Candidate, sourceId: string, content: string): (r: Option<EvidenceItem>)
    requires c.web
    ensures r.Some? ==> ValidMetadata(r.value) && r.value.web
  {
    if !IsText(c.canonicalId) || !IsText(c.sourceLocator) || Blank(content)
       || !(c.locatorType == Str("ABSTRACT") || c.locatorType == Str("FULLTEXT_SPAN"))
    then None
    else Some(EvidenceItem(sourceId, true, "", "", "", OrEmpty(c.title), [], 0, 0, [], content, false, 0,
                           c.canonicalId.value, c.sourceLocator.value, c.locatorType.value))
  }

  function LocalItem(c: Candidate, sourceId: string, content: string, contextBlocks: seq<string>, contextPages: seq<int>)
    : (r: Option<EvidenceItem>)
    requires !c.web
  {
    if !IsText(c.chunkId) || !IsText(c.workId) || !IsText(c.documentId) || !IsText(c.title) then None
    else
      var primary := StringList(c.blockIds);
      if primary == [] || Blank(content) then None
      else if c.pageStart == None || c.pageEnd == None || c.pageStart.value < 1
              || c.pageEnd.value < c.pageStart.value then None
      else
        var pages := [c.pageStart.value, c.pageEnd.value] + contextPages;
        Some(EvidenceItem(sourceId, false, c.chunkId.value, c.workId.value, c.documentId.value, c.title.value,
                          StringList(c.sectionPath), MinPage(pages), MaxPage(pages), AddNew([], primary + contextBlocks),
                          content, false, 0, "", "", ""))
  }

  lemma LocalItemValid(c: Candidate, sourceId: string, content: string, contextBlocks: seq<string>, contextPages: seq<int>)
    requires !c.web && IsSourceId(sourceId)
    requires forall id :: id in contextBlocks ==> !Blank(id)
    requires forall page :: page in contextPages ==> page >= 1
    ensures var r := LocalItem(c, sourceId, content, contextBlocks, contextPages); r.Some? ==> ValidMetadata(r.value)
  {
    hide Blank, IsSourceId, AddNew, MinPage, MaxPage, StringList;
    var r := LocalItem(c, sourceId, content, contextBlocks, contextPages);
    if r.Some? {
      var pages := [c.pageStart.value, c.pageEnd.value] + contextPages;
      assert StringList(c.blockIds)[0] in r.value.blockIds;
      assert pages[0] in pages && r.value.pageStart in pages;
    }
  }

  /** `_candidate_item`: None for incomplete metadata, otherwise an item the
      validator accepts. */
  function CandidateItem(c: Candidate, sourceId: string, content: string,
                         contextBlocks: seq<string>, contextPages: seq<int>): (r: Option<EvidenceItem>)
    requires forall id :: id in contextBlocks ==> !Blank(id)
    requires forall page :: page in contextPages ==> page >= 1
    requires IsSourceId(sourceId)
    ensures r.Some? ==> ValidMetadata(r.value)
    ensures r.Some? ==> r.value.sourceId == sourceId && r.value.content == content && r.value.web == c.web
    ensures r.Some? ==> !r.value.truncated
    ensures r.Some? && !c.web ==> c.chunkId == Str(r.value.chunkId) && c.workId == Str(r.value.workId)
                                  && c.documentId == Str(r.value.documentId)
  {
    if c.web then WebItem(c, sourceId, content)
    else
      LocalItemValid(c, sourceId, content, contextBlocks, contextPages);
      LocalItem(c, sourceId, content, contextBlocks, contextPages)
  }

  /** The list holds exactly the stripped texts, each once, in order of first appearance. */
  lemma {:induction false} TextsAre(fields: seq<Field>, x: string)
    ensures x in Texts(fields) <==> exists f :: f in fields && IsText(f) && Strip(f.value) == x
  {
    hide Strip, Blank;
    if fields != [] {
      TextsAre(fields[1..], x);
      assert forall f :: f in fields <==> f == fields[0] || f in fields[1..];
    }
  }

  lemma StringListIs(value: Option<seq<Field>>, x: string)
    ensures x in StringList(value) <==> value.Some? && exists f :: f in value.value && IsText(f) && Strip(f.value) == x
  {
    hide AddNew, Texts, Strip, Blank;
    if value.Some? { TextsAre(value.value, x); }
  }

  /** Every field of a local item comes from the candidate or its contexts. */
  lemma LocalItemIs(c: Candidate, sourceId: string, content: string, contextBlocks: seq<string>, contextPages: seq<int>)
    requires !c.web && LocalItem(c, sourceId, content, contextBlocks, contextPages).Some?
    ensures var item := LocalItem(c, sourceId, content, contextBlocks, contextPages).value;
            && c.chunkId == Str(item.chunkId) && c.workId == Str(item.workId) && c.documentId == Str(item.documentId)
            && c.title == Str(item.title) && item.sectionPath == StringList(c.sectionPath)
            && item.sourceId == sourceId && item.content == content && !item.web && !item.truncated
            && (forall id :: id in item.blockIds <==> id in StringList(c.blockIds) || id in contextBlocks)
            && Distinct(item.blockIds) && StringList(c.blockIds) <= item.blockIds
            && c.pageStart.Some? && c.pageEnd.Some?
            && (forall page :: page == c.pageStart.value || page == c.pageEnd.value || page in contextPages ==>
                  item.pageStart <= page <= item.pageEnd)
            && (item.pageStart == c.pageStart.value || item.pageStart in contextPages)
            && (item.pageEnd == c.pageEnd.value || item.pageEnd in contextPages)
  {
    hide Blank, StringList, AddNew, MinPage, MaxPage;
    var pages := [c.pageStart.value, c.pageEnd.value] + contextPages;
    assert pages[0] in pages && pages[1] in pages;
    forall page | page in contextPages ensures page in pages { }
    AddNewKeeps(StringList(c.blockIds), contextBlocks);
  }

  lemma {:induction false} AddNewKeeps(xs: seq<string>, ys: seq<string>)
    requires Distinct(xs)
    ensures xs <= AddNew([], xs + ys)
  {
    AddNewFresh([], xs, ys);
  }

  lemma {:induction false} AddNewFresh(acc: seq<string>, xs: seq<string>, ys: seq<string>)
    requires Distinct(acc + xs)
    ensures acc + xs <= AddNew(acc, xs + ys)
    decreases |xs|
  {
    if xs == [] {
      assert acc + xs == acc && xs + ys == ys;
    } else {
      assert (xs + ys)[0] == xs[0] && (xs + ys)[1..] == xs[1..] + ys;
      assert acc + [xs[0]] + xs[1..] == acc + xs;
      assert (acc + xs)[|acc|] == xs[0];
      forall k | 0 <= k < |acc| ensures acc[k] != xs[0] { assert (acc + xs)[k] == acc[k]; }
      AddNewFresh(acc + [xs[0]], xs[1..], ys);
    }
  }

  /** And of an external item. */
  lemma WebItemIs(c: Candidate, sourceId: string, content: string)
    requires c.web && WebItem(c, sourceId, content).Some?
    ensures var item := WebItem(c, sourceId, content).value;
            && c.canonicalId == Str(item.canonicalId) && c.sourceLocator == Str(item.sourceLocator)
            && c.locatorType == Str(item.locatorType)
            && (item.title == match c.title case Absent => "" case Str(title) => title case Other(shown) => shown)
            && item.sourceId == sourceId && item.content == content && item.web && !item.truncated
  {
  }

  // ----- fitting one block -----

  /** The item as it enters the bundle: whole if it fits, else truncated if at
      least MIN_CONTENT_TOKENS remain for its content, else None. */
  function Fitted(item: EvidenceItem, remaining: int): Option<EvidenceItem> {
    if TokenCount(Render(item)) <= remaining then
      Some(item.(tokenCount := TokenCount(Render(item))))
    else
      var contentBudget := remaining - TokenCount(Header(item));
      if contentBudget < MIN_CONTENT_TOKENS || Truncated(item.content, contentBudget) == "" then None
      else
        var short := item.(content := Truncated(item.content, contentBudget), truncated := true);
        Some(short.(tokenCount := TokenCount(Render(short))))
  }

  lemma HeaderIgnoresContent(item: EvidenceItem, other: EvidenceItem)
    requires other == item.(content := other.content, truncated := other.truncated, tokenCount := other.tokenCount)
    ensures Header(other) == Header(item)
  {
  }

  /** A fitted block respects what remains and is still a valid item. */
  lemma FittedFits(item: EvidenceItem, remaining: int)
    requires ValidMetadata(item) && IsSourceId(item.sourceId) && !item.truncated
    requires Fitted(item, remaining).Some?
    ensures var r := Fitted(item, remaining).value;
            && TokenCount(Render(r)) <= remaining
            && r.tokenCount == TokenCount(Render(r))
            && ValidMetadata(r)
            && r == item.(content := r.content, truncated := r.truncated, tokenCount := r.tokenCount)
            && (r.truncated <==> TokenCount(Render(item)) > remaining)
  {
    hide Metadata, TokenCount, Truncated;
    var r := Fitted(item, remaining).value;
    HeaderIgnoresContent(item, r);
    HeaderIgnoresContent(item, r.(tokenCount := item.tokenCount));
    if TokenCount(Render(item)) > remaining {
      TruncatedFits(item.content, remaining - TokenCount(Header(item)));
      RenderCount(r);
    }
  }

  /** The test of `if not truncated_content` never succeeds. */
  lemma OnlyTheBudgetRejects(item: EvidenceItem, remaining: int)
    requires ValidMetadata(item)
    ensures Fitted(item, remaining) == None <==>
            TokenCount(Render(item)) > remaining && remaining - TokenCount(Header(item)) < 20
  {
    hide Metadata, TokenCount, Truncated;
    if remaining - TokenCount(Header(item)) >= MIN_CONTENT_TOKENS {
      TruncatedFits(item.content, remaining - TokenCount(Header(item)));
    }
  }

  method FitBlock(item: EvidenceItem, remaining: int) returns (r: Option<EvidenceItem>)
    ensures r == Fitted(item, remaining)
  {
    hide Metadata, TokenCount, Truncated;
    var fullBlock := Render(item);
    if TokenCount(fullBlock) > remaining {
      var contentBudget := remaining - TokenCount(Header(item));
      if contentBudget < MIN_CONTENT_TOKENS {
        return None;
      }
      var truncatedContent := TruncateToBudget(item.content, contentBudget);
      if truncatedContent == "" {
        return None;
      }
      var short := item.(content := truncatedContent, truncated := true);
      return Some(short.(tokenCount := TokenCount(Render(short))));
    }
    return Some(item.(tokenCount := TokenCount(fullBlock)));
  }

  // ----- the bundle -----

  function OfWork(evidence: seq<EvidenceItem>, workId: string): nat {
    if evidence == [] then 0
    else
      var last := evidence[|evidence| - 1];
      OfWork(evidence[..|evidence| - 1], workId) + if !last.web && last.workId == workId then 1 else 0
  }

  lemma OfWorkSnoc(evidence: seq<EvidenceItem>, item: EvidenceItem, workId: string)
    ensures OfWork(evidence + [item], workId) ==
            OfWork(evidence, workId) + if !item.web && item.workId == workId then 1 else 0
  {
    assert (evidence + [item])[..|evidence|] == evidence;
  }

  /** What the bundle promises about its items beyond what the validator checks. */
  ghost predicate Diverse(evidence: seq<EvidenceItem>, perWork: nat) {
    && (forall i, k :: 0 <= i < k < |evidence| && !evidence[i].web && !evidence[k].web ==>
          && evidence[i].chunkId != evidence[k].chunkId
          && (evidence[i].workId == evidence[k].workId ==> evidence[i].documentId == evidence[k].documentId))
    && (forall i, k :: 0 <= i < k < |evidence| && evidence[i].web && evidence[k].web ==>
          evidence[i].canonicalId != evidence[k].canonicalId)
    && (forall workId :: OfWork(evidence, workId) <= perWork)
  }

  predicate Numbered(evidence: seq<EvidenceItem>) {
    forall i :: 0 <= i < |evidence| ==> evidence[i].sourceId == SourceId(i + 1)
  }

  predicate OnlyLastTruncated(evidence: seq<EvidenceItem>) {
    forall i :: 0 <= i < |evidence| - 1 ==> !evidence[i].truncated
  }

  predicate Sound(evidence: seq<EvidenceItem>, budget: int) {
    && Numbered(evidence)
    && OnlyLastTruncated(evidence)
    && TokenCount(ContextText(evidence)) <= budget
    && forall i :: 0 <= i < |evidence| ==> ValidMetadata(evidence[i]) && evidence[i].tokenCount == TokenCount(Render(evidence[i]))
  }

  lemma SoundSnoc(evidence: seq<EvidenceItem>, item: EvidenceItem, budget: int)
    requires Sound(evidence, budget) && Open(evidence)
    requires item.sourceId == SourceId(|evidence| + 1) && ValidMetadata(item)
    requires item.tokenCount == TokenCount(Render(item))
    requires TokenCount(Render(item)) <= budget - TokenCount(ContextText(evidence))
    ensures Sound(evidence + [item], budget)
  {
    hide ValidMetadata, TokenCount, Header, ContextText, IsSourceId, Decimal;
    SourceIdMatches(|evidence| + 1);
    ContextTextSnoc(evidence, item);
  }

  /** Any sound, non-empty bundle passes every check of the validator. */
  lemma SoundIsValid(b: ContextBundle)
    requires Sound(b.evidence, b.tokenBudget) && b.evidence != []
    requires b.contextText == ContextText(b.evidence) && b.tokenCount == TokenCount(b.contextText)
    requires !Blank(b.query) && (b.retrievalMode == "fast" || b.retrievalMode == "accurate")
    requires 100 <= b.tokenBudget <= 100_000
    ensures ValidBundle(b)
  {
    hide TokenCount, ContextText, ValidMetadata, Render, Blank, Contains, SourceId;
    TextHasInk(b);
    forall i, k | 0 <= i < k < |b.evidence|
      ensures b.evidence[i].sourceId != b.evidence[k].sourceId
    {
      if b.evidence[i].sourceId == b.evidence[k].sourceId {
        SourceIdInjective(i + 1, k + 1);
      }
    }
    forall i | 0 <= i < |b.evidence| ensures ItemOk(b.evidence[i], b.contextText) {
      SourceInText(b.evidence, i);
    }
  }

  lemma TextHasInk(b: ContextBundle)
    requires b.evidence != [] && b.contextText == ContextText(b.evidence)
    ensures !Blank(b.contextText)
  {
    hide ContextText, TokenCount;
    SourceInText(b.evidence, 0);
    var at: nat :| at <= |b.contextText| && At(b.contextText, at, HeaderOpen(b.evidence[0]));
    assert b.contextText[at..at + |HeaderOpen(b.evidence[0])|][0] == '[';
    assert b.contextText[at] in b.contextText && !IsSpace('[');
  }

  // ----- the loop over candidates -----

  predicate HasChunk(evidence: seq<EvidenceItem>, chunkId: string) {
    exists i :: 0 <= i < |evidence| && !evidence[i].web && evidence[i].chunkId == chunkId
  }

  predicate HasExternal(evidence: seq<EvidenceItem>, identity: string) {
    exists i :: 0 <= i < |evidence| && evidence[i].web && evidence[i].canonicalId == identity
  }

  predicate HasVersion(evidence: seq<EvidenceItem>, workId: string, documentId: string) {
    exists i :: 0 <= i < |evidence| && !evidence[i].web && evidence[i].workId == workId && evidence[i].documentId == documentId
  }

  lemma HasSnoc(evidence: seq<EvidenceItem>, item: EvidenceItem)
    ensures forall id :: HasChunk(evidence + [item], id) <==> HasChunk(evidence, id) || (!item.web && item.chunkId == id)
    ensures forall id :: HasExternal(evidence + [item], id) <==> HasExternal(evidence, id) || (item.web && item.canonicalId == id)
    ensures forall w, d :: HasVersion(evidence + [item], w, d) <==>
                             HasVersion(evidence, w, d) || (!item.web && item.workId == w && item.documentId == d)
  {
    var all := evidence + [item];
    assert all[|evidence|] == item;
    forall id | HasChunk(evidence, id) ensures HasChunk(all, id) {
      var i :| 0 <= i < |evidence| && !evidence[i].web && evidence[i].chunkId == id;
      assert all[i] == evidence[i];
    }
    forall id | HasExternal(evidence, id) ensures HasExternal(all, id) {
      var i :| 0 <= i < |evidence| && evidence[i].web && evidence[i].canonicalId == id;
      assert all[i] == evidence[i];
    }
    forall w, d | HasVersion(evidence, w, d) ensures HasVersion(all, w, d) {
      var i :| 0 <= i < |evidence| && !evidence[i].web && evidence[i].workId == w && evidence[i].documentId == d;
      assert all[i] == evidence[i];
    }
  }

  /** The loop's tables are exactly what the evidence selected so far says. */
  ghost predicate Linked(evidence: seq<EvidenceItem>, chunks: set<string>, documents: map<string, string>,
                         counts: map<string, nat>, external: set<string>) {
    && (forall id :: id in chunks <==> HasChunk(evidence, id))
    && (forall id :: id in external <==> HasExternal(evidence, id))
    && (forall w, d :: HasVersion(evidence, w, d) <==> w in documents && documents[w] == d)
    && (forall workId :: OfWork(evidence, workId) == if workId in counts then counts[workId] else 0)
  }

  lemma LinkedMeans(evidence: seq<EvidenceItem>, chunks: set<string>, documents: map<string, string>,
                    counts: map<string, nat>, external: set<string>)
    requires Linked(evidence, chunks, documents, counts, external)
    ensures forall i :: 0 <= i < |evidence| && !evidence[i].web ==>
              && evidence[i].chunkId in chunks
              && evidence[i].workId in documents && documents[evidence[i].workId] == evidence[i].documentId
    ensures forall i :: 0 <= i < |evidence| && evidence[i].web ==> evidence[i].canonicalId in external
  {
    forall i | 0 <= i < |evidence| && !evidence[i].web
      ensures evidence[i].chunkId in chunks
      ensures evidence[i].workId in documents && documents[evidence[i].workId] == evidence[i].documentId
    {
      assert HasChunk(evidence, evidence[i].chunkId) && HasVersion(evidence, evidence[i].workId, evidence[i].documentId);
    }
    forall i | 0 <= i < |evidence| && evidence[i].web ensures evidence[i].canonicalId in external {
      assert HasExternal(evidence, evidence[i].canonicalId);
    }
  }

  lemma DiverseLocal(evidence: seq<EvidenceItem>, item: EvidenceItem, perWork: nat, chunks: set<string>,
                     documents: map<string, string>, counts: map<string, nat>, external: set<string>)
    requires Diverse(evidence, perWork) && Linked(evidence, chunks, documents, counts, external)
    requires !item.web && item.chunkId !in chunks
    requires item.workId in documents ==> documents[item.workId] == item.documentId
    requires (if item.workId in counts then counts[item.workId] else 0) < perWork
    ensures Diverse(evidence + [item], perWork)
    ensures Linked(evidence + [item], chunks + {item.chunkId}, documents[item.workId := item.documentId],
                   counts[item.workId := (if item.workId in counts then counts[item.workId] else 0) + 1], external)
  {
    hide HasChunk, HasExternal, HasVersion, OfWork;
    LinkedMeans(evidence, chunks, documents, counts, external);
    HasSnoc(evidence, item);
    forall workId ensures OfWork(evidence + [item], workId) ==
                          OfWork(evidence, workId) + if workId == item.workId then 1 else 0 {
      OfWorkSnoc(evidence, item, workId);
    }
  }

  lemma DiverseWeb(evidence: seq<EvidenceItem>, item: EvidenceItem, perWork: nat, chunks: set<string>,
                   documents: map<string, string>, counts: map<string, nat>, external: set<string>)
    requires Diverse(evidence, perWork) && Linked(evidence, chunks, documents, counts, external)
    requires item.web && item.canonicalId !in external
    ensures Diverse(evidence + [item], perWork)
    ensures Linked(evidence + [item], chunks, documents, counts, external + {item.canonicalId})
  {
    hide HasChunk, HasExternal, HasVersion, OfWork;
    LinkedMeans(evidence, chunks, documents, counts, external);
    HasSnoc(evidence, item);
    forall workId ensures OfWork(evidence + [item], workId) == OfWork(evidence, workId) {
      OfWorkSnoc(evidence, item, workId);
    }
  }

  /** Appending a fitted candidate keeps the bundle sound. */
  lemma SoundFitted(evidence: seq<EvidenceItem>, item: EvidenceItem, budget: int)
    requires Sound(evidence, budget) && Open(evidence)
    requires item.sourceId == SourceId(|evidence| + 1) && ValidMetadata(item) && !item.truncated
    requires Fitted(item, budget - TokenCount(ContextText(evidence))).Some?
    ensures var r := Fitted(item, budget - TokenCount(ContextText(evidence))).value;
            && Sound(evidence + [r], budget)
            && r == item.(content := r.content, truncated := r.truncated, tokenCount := r.tokenCount)
  {
    hide Fitted, Metadata, TokenCount, ValidMetadata;
    SourceIdMatches(|evidence| + 1);
    FittedFits(item, budget - TokenCount(ContextText(evidence)));
    SoundSnoc(evidence, Fitted(item, budget - TokenCount(ContextText(evidence))).value, budget);
  }

  /** The loop's state: the evidence and the tables of what was seen. */
  datatype Selection = Selection(
    evidence: seq<EvidenceItem>, chunks: set<string>, external: set<string>, prints: set<string>,
    documents: map<string, string>, counts: map<string, nat>)

  ghost predicate Consistent(s: Selection, budget: int, perWork: nat) {
    && Sound(s.evidence, budget)
    && Diverse(s.evidence, perWork)
    && Linked(s.evidence, s.chunks, s.documents, s.counts, s.external)
  }

  predicate Open(evidence: seq<EvidenceItem>) {
    evidence == [] || !evidence[|evidence| - 1].truncated
  }

  // ----- what happens to one candidate -----

  datatype Decision = Refuse(reason: Reason) | Admit(item: EvidenceItem, prints: set<string>)

  function Identity(c: Candidate): string {
    if OrEmpty(c.canonicalId) != "" then OrEmpty(c.canonicalId) else OrEmpty(c.sourceLocator)
  }

  function Placed(item: Option<EvidenceItem>, evidence: seq<EvidenceItem>, budget: int, prints: set<string>): Decision {
    match item
    case None => Refuse(InvalidMetadata)
    case Some(i) =>
      match Fitted(i, budget - TokenCount(ContextText(evidence)))
      case None => Refuse(TokenBudgetExhausted)
      case Some(fitted) => Admit(fitted, prints)
  }

  function DecideWeb(evidence: seq<EvidenceItem>, c: Candidate, budget: int): Decision {
    var primary := Strip(OrEmpty(c.content));
    if primary == "" || Identity(c) == "" then Refuse(InvalidMetadata)
    else if HasExternal(evidence, Identity(c)) then Refuse(DuplicateExternalSource)
    else
      SourceIdMatches(|evidence| + 1);
      Placed(CandidateItem(c, SourceId(|evidence| + 1), primary, [], []), evidence, budget, {})
  }

  /** An external candidate with a text is refused as a duplicate exactly when an item
      of the bundle has its canonical id, or its locator if it has no canonical id. */
  lemma DuplicateSourceIff(evidence: seq<EvidenceItem>, c: Candidate, budget: int)
    ensures var canonical, locator := OrEmpty(c.canonicalId), OrEmpty(c.sourceLocator);
            DecideWeb(evidence, c, budget) == Refuse(DuplicateExternalSource) <==>
            && !Blank(OrEmpty(c.content)) && (canonical != "" || locator != "")
            && exists i :: 0 <= i < |evidence| && evidence[i].web &&
                           evidence[i].canonicalId == if canonical != "" then canonical else locator
  {
    hide CandidateItem, Fitted, TokenCount, ContextText, Blank, Strip, OrEmpty, SourceId, IsSourceId;
    SourceIdMatches(|evidence| + 1);
  }

  function EvidenceText(c: Candidate, kept: seq<Labelled>): string {
    Join(PartsOf(kept) + ["[Primary evidence]\n" + Strip(OrEmpty(c.content))], SEPARATOR)
  }

  function DecideLocal(evidence: seq<EvidenceItem>, prints: set<string>, c: Candidate, budget: int, perWork: nat): Decision {
    if !IsText(c.chunkId) || !IsText(c.workId) || !IsText(c.documentId) || !IsText(c.content) then Refuse(InvalidMetadata)
    else if HasChunk(evidence, c.chunkId.value) then Refuse(DuplicateChunk)
    else if Fingerprint(c.content.value) in prints then Refuse(DuplicateContent)
    else if OtherVersion(evidence, c.workId.value, c.documentId.value) then Refuse(DuplicateWorkDocumentVersion)
    else if OfWork(evidence, c.workId.value) >= perWork then Refuse(PerWorkLimit)
    else
      var own := {Fingerprint(c.content.value)};
      var kept := Kept(Attached(c), c.workId.value, c.documentId.value, prints + own);
      SourceIdMatches(|evidence| + 1);
      Placed(CandidateItem(c, SourceId(|evidence| + 1), EvidenceText(c, kept), AddNew([], BlocksOf(kept)), PagesOf(kept)),
             evidence, budget, own + Prints(kept))
  }

  predicate OtherVersion(evidence: seq<EvidenceItem>, workId: string, documentId: string) {
    exists i :: 0 <= i < |evidence| && !evidence[i].web && evidence[i].workId == workId && evidence[i].documentId != documentId
  }

  lemma OtherVersionIff(s: Selection, workId: string, documentId: string)
    requires Linked(s.evidence, s.chunks, s.documents, s.counts, s.external)
    ensures OtherVersion(s.evidence, workId, documentId) <==> workId in s.documents && s.documents[workId] != documentId
  {
    LinkedMeans(s.evidence, s.chunks, s.documents, s.counts, s.external);
    if workId in s.documents && s.documents[workId] != documentId {
      assert HasVersion(s.evidence, workId, s.documents[workId]);
    }
  }

  ghost predicate StepsTo(s: Selection, r: Selection, skip: Option<Reason>, d: Decision) {
    match d
    case Refuse(reason) => skip == Some(reason) && r == s
    case Admit(item, prints) => skip == None && r.evidence == s.evidence + [item] && r.prints == s.prints + prints
  }

  lemma ExternalAnswers(s: Selection, budget: int, perWork: nat, identity: string)
    requires Consistent(s, budget, perWork)
    ensures HasExternal(s.evidence, identity) <==> identity in s.external
  {
    hide Sound, Diverse, HasExternal;
  }

  /** One external candidate: skipped with a reason, or its item appended. */
  method StepWeb(s: Selection, candidate: Candidate, budget: int, ghost perWork: nat)
    returns (r: Selection, skip: Option<Reason>)
    requires candidate.web && Consistent(s, budget, perWork) && Open(s.evidence)
    ensures Consistent(r, budget, perWork)
    ensures StepsTo(s, r, skip, DecideWeb(s.evidence, candidate, budget))
  {
    hide Metadata, Header, TokenCount, Fitted, Blank, Strip, Sound, Diverse, OfWork, ValidMetadata, CandidateItem, Linked,
         HasExternal, ContextText, IsSourceId, Decimal, Identity;
    r := s;
    ExternalAnswers(s, budget, perWork, Identity(candidate));
    var identity := Identity(candidate);
    var primary := Strip(OrEmpty(candidate.content));
    if primary == "" || identity == "" {
      return s, Some(InvalidMetadata);
    }
    if identity in s.external {
      return s, Some(DuplicateExternalSource);
    }
    var sourceId := SourceId(|s.evidence| + 1);
    SourceIdMatches(|s.evidence| + 1);
    var item := CandidateItem(candidate, sourceId, primary, [], []);
    if item == None {
      return s, Some(InvalidMetadata);
    }
    var fitted := FitBlock(item.value, budget - TokenCount(ContextText(s.evidence)));
    if fitted == None {
      return s, Some(TokenBudgetExhausted);
    }
    WebIdentity(candidate, sourceId, primary);
    assert item.value.canonicalId == identity;
    SoundFitted(s.evidence, item.value, budget);
    DiverseWeb(s.evidence, fitted.value, perWork, s.chunks, s.documents, s.counts, s.external);
    assert s.prints + {} == s.prints;
    return s.(evidence := s.evidence + [fitted.value], external := s.external + {identity}), None;
  }

  /** The tables answer the questions the decision asks about the evidence. */
  lemma TablesAnswer(s: Selection, budget: int, perWork: nat, c: Candidate)
    requires Consistent(s, budget, perWork) && IsText(c.chunkId) && IsText(c.workId) && IsText(c.documentId) && IsText(c.content)
    ensures HasChunk(s.evidence, c.chunkId.value) <==> c.chunkId.value in s.chunks
    ensures OtherVersion(s.evidence, c.workId.value, c.documentId.value) <==>
              c.workId.value in s.documents && s.documents[c.workId.value] != c.documentId.value
    ensures OfWork(s.evidence, c.workId.value) == if c.workId.value in s.counts then s.counts[c.workId.value] else 0
  {
    hide Sound, Diverse, OtherVersion, HasChunk, HasVersion, HasExternal, OfWork;
    OtherVersionIff(s, c.workId.value, c.documentId.value);
  }

  method StepLocal(s: Selection, candidate: Candidate, budget: int, perWork: nat)
    returns (r: Selection, skip: Option<Reason>)
    requires !candidate.web && Consistent(s, budget, perWork) && Open(s.evidence)
    ensures Consistent(r, budget, perWork)
    ensures StepsTo(s, r, skip, DecideLocal(s.evidence, s.prints, candidate, budget, perWork))
  {
    hide Header, TokenCount, Fitted, Blank, Strip, Sound, Diverse, OfWork, ValidMetadata, CandidateItem, Linked,
         Fingerprint, Kept, Attached, PartsOf, PagesOf, BlocksOf, Prints, Join, IsSourceId, Decimal, AddNew,
         HasChunk, OtherVersion, ContextText;
    r := s;
    if !IsText(candidate.chunkId) || !IsText(candidate.workId) || !IsText(candidate.documentId)
       || !IsText(candidate.content) {
      return s, Some(InvalidMetadata);
    }
    TablesAnswer(s, budget, perWork, candidate);
    var chunkId, workId := candidate.chunkId.value, candidate.workId.value;
    var documentId := candidate.documentId.value;
    if chunkId in s.chunks {
      return s, Some(DuplicateChunk);
    }
    var primaryPrint := Fingerprint(candidate.content.value);
    if primaryPrint in s.prints {
      return s, Some(DuplicateContent);
    }
    if workId in s.documents && s.documents[workId] != documentId {
      return s, Some(DuplicateWorkDocumentVersion);
    }
    var ofWork := if workId in s.counts then s.counts[workId] else 0;
    if ofWork >= perWork {
      return s, Some(PerWorkLimit);
    }
    var content := CandidateContent(candidate, workId, documentId, s.prints + {primaryPrint});
    var sourceId := SourceId(|s.evidence| + 1);
    SourceIdMatches(|s.evidence| + 1);
    var item := CandidateItem(candidate, sourceId, content.text, content.blockIds, content.pages);
    if item == None {
      return s, Some(InvalidMetadata);
    }
    var fitted := FitBlock(item.value, budget - TokenCount(ContextText(s.evidence)));
    if fitted == None {
      return s, Some(TokenBudgetExhausted);
    }
    SoundFitted(s.evidence, item.value, budget);
    DiverseLocal(s.evidence, fitted.value, perWork, s.chunks, s.documents, s.counts, s.external);
    assert s.prints + {primaryPrint} + content.prints == s.prints + ({primaryPrint} + content.prints);
    return Selection(s.evidence + [fitted.value], s.chunks + {chunkId}, s.external,
                     s.prints + {primaryPrint} + content.prints,
                     s.documents[workId := documentId], s.counts[workId := ofWork + 1]), None;
  }

  // ----- all candidates -----

  datatype Progress = Progress(evidence: seq<EvidenceItem>, prints: set<string>, skipped: seq<Reason>, stopped: bool)

  predicate Halted(p: Progress, maxEvidence: int) {
    p.stopped || |p.evidence| >= maxEvidence || !Open(p.evidence)
  }

  /** Candidate by candidate, until the budget, the item limit or a truncated item ends it. */
  function Progressed(results: seq<Candidate>, budget: int, maxEvidence: int, perWork: nat): Progress {
    if results == [] then Progress([], {}, [], false)
    else
      var p, c := Progressed(results[..|results| - 1], budget, maxEvidence, perWork), results[|results| - 1];
      if Halted(p, maxEvidence) then p
      else
        match if c.web then DecideWeb(p.evidence, c, budget) else DecideLocal(p.evidence, p.prints, c, budget, perWork)
        case Refuse(reason) => p.(skipped := p.skipped + [reason], stopped := reason == TokenBudgetExhausted)
        case Admit(item, prints) => p.(evidence := p.evidence + [item], prints := p.prints + prints)
  }

  lemma ProgressStep(results: seq<Candidate>, i: nat, budget: int, maxEvidence: int, perWork: nat,
                     s: Selection, r: Selection, skipped: seq<Reason>, skip: Option<Reason>)
    requires i < |results| && !Halted(Progress(s.evidence, s.prints, skipped, false), maxEvidence)
    requires Progressed(results[..i], budget, maxEvidence, perWork) == Progress(s.evidence, s.prints, skipped, false)
    requires StepsTo(s, r, skip, if results[i].web then DecideWeb(s.evidence, results[i], budget)
                                 else DecideLocal(s.evidence, s.prints, results[i], budget, perWork))
    ensures Progressed(results[..i + 1], budget, maxEvidence, perWork) ==
            Progress(r.evidence, r.prints, if skip.Some? then skipped + [skip.value] else skipped,
                     skip == Some(TokenBudgetExhausted))
  {
    hide DecideWeb, DecideLocal, Halted;
    assert results[..i + 1][..i] == results[..i];
  }

  lemma {:induction false} HaltedStays(results: seq<Candidate>, i: nat, budget: int, maxEvidence: int, perWork: nat)
    requires i <= |results| && (i < |results| ==> Halted(Progressed(results[..i], budget, maxEvidence, perWork), maxEvidence))
    ensures Progressed(results, budget, maxEvidence, perWork) == Progressed(results[..i], budget, maxEvidence, perWork)
  {
    hide DecideWeb, DecideLocal, Halted;
    if i == |results| {
      assert results[..i] == results;
    } else {
      var front := results[..|results| - 1];
      assert front[..i] == results[..i];
      HaltedStays(front, i, budget, maxEvidence, perWork);
    }
  }

  lemma NoProgress(budget: int, maxEvidence: int, perWork: nat)
    ensures Progressed([], budget, maxEvidence, perWork) == Progress([], {}, [], false)
  {
  }

  // ----- which contents count as shown already -----

  function WordsOf(f: Field): seq<string> {
    Splitting.Words(OrEmpty(f))
  }

  predicate UsableIn(c: Candidate, l: Labelled) {
    && l.context.content.Str? && !Blank(l.context.content.value)
    && l.context.workId in {Absent, Str(OrEmpty(c.workId))} && l.context.documentId in {Absent, Str(OrEmpty(c.documentId))}
  }

  lemma UsableInIff(c: Candidate, l: Labelled)
    ensures UsableIn(c, l) <==> Usable(l.context, OrEmpty(c.workId), OrEmpty(c.documentId))
  {
  }

  /** A usable one among these contexts of the candidate has these words. */
  ghost predicate HasUsable(c: Candidate, contexts: seq<Labelled>, words: seq<string>) {
    exists l :: l in contexts && UsableIn(c, l) && WordsOf(l.context.content) == words
  }

  /** The candidate shows a text with these words: its own, or a usable context. */
  ghost predicate Shows(c: Candidate, words: seq<string>) {
    WordsOf(c.content) == words || HasUsable(c, Attached(c), words)
  }

  ghost predicate AdmittedAt(results: seq<Candidate>, i: nat, budget: int, maxEvidence: int, perWork: nat)
    requires i < |results|
  {
    |Progressed(results[..i + 1], budget, maxEvidence, perWork).evidence| >
    |Progressed(results[..i], budget, maxEvidence, perWork).evidence|
  }

  /** An admitted local candidate before position `n` shows these words. */
  ghost predicate ShownBefore(results: seq<Candidate>, n: nat, budget: int, maxEvidence: int, perWork: nat, words: seq<string>)
    requires n <= |results|
  {
    exists i: nat :: i < n && !results[i].web && AdmittedAt(results, i, budget, maxEvidence, perWork) && Shows(results[i], words)
  }

  /** Keeping the new contexts, all usable ones are among what has been shown. */
  lemma {:induction false} KeptCovers(contexts: seq<Labelled>, workId: string, documentId: string, seen: set<string>, mark: string)
    ensures mark in seen + Prints(Kept(contexts, workId, documentId, seen)) <==>
            mark in seen || exists l :: l in contexts && Usable(l.context, workId, documentId) && Print(l) == mark
  {
    hide Usable, Print, Prints;
    if contexts == [] {
      NothingKept(workId, documentId, seen);
    } else {
      var init, last := contexts[..|contexts| - 1], contexts[|contexts| - 1];
      KeptCovers(init, workId, documentId, seen, mark);
      KeptCovers(init, workId, documentId, seen, Print(last));
      PrintsSnoc(Kept(init, workId, documentId, seen), last);
      assert forall l :: l in contexts <==> l in init || l == last;
    }
  }

  lemma FieldWords(f: Field)
    ensures WordsOf(f) == Splitting.Words(OrEmpty(f))
  {
  }

  lemma KeptCoversWords(c: Candidate, contexts: seq<Labelled>, seen: set<string>, text: string)
    ensures Fingerprint(text) in seen + Prints(Kept(contexts, OrEmpty(c.workId), OrEmpty(c.documentId), seen)) <==>
            Fingerprint(text) in seen || HasUsable(c, contexts, Splitting.Words(text))
  {
    hide Fingerprint, Prints, Kept, Usable, UsableIn, Splitting.Words;
    forall l: Labelled ensures UsableIn(c, l) <==> Usable(l.context, OrEmpty(c.workId), OrEmpty(c.documentId)) { UsableInIff(c, l); }
    KeptCovers(contexts, OrEmpty(c.workId), OrEmpty(c.documentId), seen, Fingerprint(text));
    forall l: Labelled ensures Print(l) == Fingerprint(text) <==> WordsOf(l.context.content) == Splitting.Words(text) {
      SameFingerprintIff(OrEmpty(l.context.content), text);
    }
  }

  lemma ShowsIff(c: Candidate, prints: set<string>, text: string)
    ensures var own := {Fingerprint(OrEmpty(c.content))};
            var kept := Kept(Attached(c), OrEmpty(c.workId), OrEmpty(c.documentId), prints + own);
            Fingerprint(text) in prints + (own + Prints(kept)) <==>
            Fingerprint(text) in prints || Shows(c, Splitting.Words(text))
  {
    hide Fingerprint, Prints, Kept, Attached, HasUsable, Splitting.Words;
    SameFingerprintIff(OrEmpty(c.content), text);
    KeptCoversWords(c, Attached(c), prints + {Fingerprint(OrEmpty(c.content))}, text);
  }

  /** The prints kept along the way are those of exactly the texts shown. */
  lemma {:induction false} PrintsAreShown(results: seq<Candidate>, n: nat, budget: int, maxEvidence: int, perWork: nat, text: string)
    requires n <= |results|
    ensures Fingerprint(text) in Progressed(results[..n], budget, maxEvidence, perWork).prints <==>
            ShownBefore(results, n, budget, maxEvidence, perWork, Splitting.Words(text))
  {
    hide *;
    ShownSnoc(results, n, budget, maxEvidence, perWork, Splitting.Words(text));
    if n == 0 {
      assert results[..0] == [];
      NoProgress(budget, maxEvidence, perWork);
    } else {
      PrintsAreShown(results, n - 1, budget, maxEvidence, perWork, text);
      PrintsStep(results, n - 1, budget, maxEvidence, perWork, text);
    }
  }

  lemma ShownSnoc(results: seq<Candidate>, n: nat, budget: int, maxEvidence: int, perWork: nat, words: seq<string>)
    requires n <= |results|
    ensures ShownBefore(results, n, budget, maxEvidence, perWork, words) <==>
              n > 0 && (ShownBefore(results, n - 1, budget, maxEvidence, perWork, words)
                        || (!results[n - 1].web && AdmittedAt(results, n - 1, budget, maxEvidence, perWork)
                            && Shows(results[n - 1], words)))
  {
    hide Shows, AdmittedAt;
  }

  function Decide(p: Progress, c: Candidate, budget: int, perWork: nat): Decision {
    if c.web then DecideWeb(p.evidence, c, budget) else DecideLocal(p.evidence, p.prints, c, budget, perWork)
  }

  lemma ProgressedAt(results: seq<Candidate>, i: nat, budget: int, maxEvidence: int, perWork: nat)
    requires i < |results|
    ensures var p, next := Progressed(results[..i], budget, maxEvidence, perWork),
                           Progressed(results[..i + 1], budget, maxEvidence, perWork);
            if Halted(p, maxEvidence) then next == p
            else match Decide(p, results[i], budget, perWork)
              case Refuse(reason) => next == p.(skipped := p.skipped + [reason], stopped := reason == TokenBudgetExhausted)
              case Admit(item, prints) => next == p.(evidence := p.evidence + [item], prints := p.prints + prints)
  {
    hide DecideWeb, DecideLocal, Halted;
    assert results[..i + 1][..i] == results[..i];
  }

  lemma DecidedPrints(p: Progress, c: Candidate, budget: int, perWork: nat)
    ensures var d := Decide(p, c, budget, perWork);
            d.Admit? ==>
              if c.web then d.prints == {}
              else
                var own := {Fingerprint(OrEmpty(c.content))};
                d.prints == own + Prints(Kept(Attached(c), OrEmpty(c.workId), OrEmpty(c.documentId), p.prints + own))
  {
    hide Fingerprint, Prints, Kept, Attached, CandidateItem, Fitted, HasChunk, HasExternal, OtherVersion, OfWork, Blank,
         TokenCount, ContextText, Identity, SourceId, EvidenceText, AddNew, BlocksOf, PagesOf, Strip;
  }

  lemma PrintsStep(results: seq<Candidate>, i: nat, budget: int, maxEvidence: int, perWork: nat, text: string)
    requires i < |results|
    ensures Fingerprint(text) in Progressed(results[..i + 1], budget, maxEvidence, perWork).prints <==>
            || Fingerprint(text) in Progressed(results[..i], budget, maxEvidence, perWork).prints
            || (!results[i].web && AdmittedAt(results, i, budget, maxEvidence, perWork)
                && Shows(results[i], Splitting.Words(text)))
  {
    hide Fingerprint, Shows, Halted, Decide, Progressed, Prints, Kept, Attached;
    var p, c := Progressed(results[..i], budget, maxEvidence, perWork), results[i];
    ProgressedAt(results, i, budget, maxEvidence, perWork);
    DecidedPrints(p, c, budget, perWork);
    if !c.web { ShowsIff(c, p.prints, text); }
  }

  /** A local candidate is refused as duplicate content exactly when it passes the
      metadata and chunk tests and its words have been shown by an admitted
      candidate before it, as its content or in a usable context. */
  lemma DuplicateContentIff(results: seq<Candidate>, n: nat, budget: int, maxEvidence: int, perWork: nat)
    requires n < |results| && !results[n].web
    ensures var c, p := results[n], Progressed(results[..n], budget, maxEvidence, perWork);
            Decide(p, c, budget, perWork) == Refuse(DuplicateContent) <==>
            && IsText(c.chunkId) && IsText(c.workId) && IsText(c.documentId) && IsText(c.content)
            && !HasChunk(p.evidence, c.chunkId.value)
            && ShownBefore(results, n, budget, maxEvidence, perWork, WordsOf(c.content))
  {
    hide Fingerprint, Prints, Kept, Attached, CandidateItem, Fitted, HasChunk, OtherVersion, OfWork, Blank,
         TokenCount, ContextText, SourceId, EvidenceText, AddNew, BlocksOf, PagesOf, Progressed, ShownBefore;
    PrintsAreShown(results, n, budget, maxEvidence, perWork, OrEmpty(results[n].content));
  }

  /** An attached context is new: its words are not those of the primary content, not
      shown by an admitted candidate before, and not those of a usable context
      attached before it. */
  ghost predicate IsNew(results: seq<Candidate>, n: nat, budget: int, maxEvidence: int, perWork: nat, j: nat)
    requires n < |results| && j < |Attached(results[n])|
  {
    var c, contexts := results[n], Attached(results[n]);
    var words := WordsOf(contexts[j].context.content);
    && words != WordsOf(c.content) && !ShownBefore(results, n, budget, maxEvidence, perWork, words)
    && !HasUsable(c, contexts[..j], words)
  }

  lemma KeptStep(c: Candidate, contexts: seq<Labelled>, j: nat, seen: set<string>)
    requires j < |contexts|
    ensures var kept := Kept(contexts[..j], OrEmpty(c.workId), OrEmpty(c.documentId), seen);
            Kept(contexts[..j + 1], OrEmpty(c.workId), OrEmpty(c.documentId), seen) ==
              if UsableIn(c, contexts[j]) && Fingerprint(OrEmpty(contexts[j].context.content)) !in seen + Prints(kept)
              then kept + [contexts[j]] else kept
  {
    hide Kept, Fingerprint, Prints, Usable, UsableIn;
    UsableInIff(c, contexts[j]);
    assert contexts[..j + 1] == contexts[..j] + [contexts[j]];
    KeptSnoc(contexts[..j], contexts[j], OrEmpty(c.workId), OrEmpty(c.documentId), seen);
  }

  /** A context enters the evidence text exactly when it is usable and new. */
  lemma ContextKeptIff(results: seq<Candidate>, n: nat, budget: int, maxEvidence: int, perWork: nat, j: nat)
    requires n < |results| && j < |Attached(results[n])|
    ensures var c, contexts := results[n], Attached(results[n]);
            var seen := Progressed(results[..n], budget, maxEvidence, perWork).prints + {Fingerprint(OrEmpty(c.content))};
            var kept := Kept(contexts[..j], OrEmpty(c.workId), OrEmpty(c.documentId), seen);
            Kept(contexts[..j + 1], OrEmpty(c.workId), OrEmpty(c.documentId), seen) ==
              if UsableIn(c, contexts[j]) && IsNew(results, n, budget, maxEvidence, perWork, j)
              then kept + [contexts[j]] else kept
  {
    var c, contexts := results[n], Attached(results[n]);
    var prints := Progressed(results[..n], budget, maxEvidence, perWork).prints;
    var text := OrEmpty(contexts[j].context.content);
    hide Kept, Fingerprint, Prints, UsableIn, Progressed, Attached, ShownBefore, HasUsable, Splitting.Words;
    KeptStep(c, contexts, j, prints + {Fingerprint(OrEmpty(c.content))});
    NewIff(results, n, budget, maxEvidence, perWork, contexts[..j], text);
  }

  lemma NewIff(results: seq<Candidate>, n: nat, budget: int, maxEvidence: int, perWork: nat,
               earlier: seq<Labelled>, text: string)
    requires n < |results|
    ensures var c := results[n];
            var seen := Progressed(results[..n], budget, maxEvidence, perWork).prints + {Fingerprint(OrEmpty(c.content))};
            Fingerprint(text) in seen + Prints(Kept(earlier, OrEmpty(c.workId), OrEmpty(c.documentId), seen)) <==>
            || Splitting.Words(text) == WordsOf(c.content)
            || ShownBefore(results, n, budget, maxEvidence, perWork, Splitting.Words(text))
            || HasUsable(c, earlier, Splitting.Words(text))
  {
    hide *;
    var c := results[n];
    var prints := Progressed(results[..n], budget, maxEvidence, perWork).prints;
    FieldWords(c.content);
    KeptCoversWords(c, earlier, prints + {Fingerprint(OrEmpty(c.content))}, text);
    PrintsAreShown(results, n, budget, maxEvidence, perWork, text);
    SameFingerprintIff(text, OrEmpty(c.content));
  }

  predicate ValidArguments(query: string, mode: string, budget: int, maxEvidence: int, perWork: int) {
    && !Blank(query) && (mode == "fast" || mode == "accurate")
    && 100 <= budget <= 100_000 && 1 <= maxEvidence <= 50 && 1 <= perWork <= 20
  }

  datatype Error = ValueError

  /** The loop over the candidates. */
  method SelectEvidence(results: seq<Candidate>, budget: int, maxEvidence: int, perWork: nat)
    returns (evidence: seq<EvidenceItem>, skipped: seq<Reason>)
    requires budget >= 0 && maxEvidence >= 0
    ensures evidence == Progressed(results, budget, maxEvidence, perWork).evidence
    ensures skipped == Progressed(results, budget, maxEvidence, perWork).skipped
    ensures Sound(evidence, budget) && Diverse(evidence, perWork)
    ensures |evidence| <= maxEvidence && |evidence| + |skipped| <= |results|
  {
    hide Metadata, TokenCount, IsSpace, Sound, Diverse, Linked, ContextText, Progressed, DecideWeb, DecideLocal, StepsTo;
    skipped := [];
    var s := Selection([], {}, {}, {}, map[], map[]);
    EmptyStart(budget, perWork);
    NoProgress(budget, maxEvidence, perWork);
    assert results[..0] == [];
    var i := 0;
    ghost var stopped := false;
    while i < |results| && |s.evidence| < maxEvidence && Open(s.evidence)
      invariant 0 <= i <= |results| && !stopped
      invariant Progressed(results[..i], budget, maxEvidence, perWork) == Progress(s.evidence, s.prints, skipped, stopped)
      invariant |s.evidence| <= maxEvidence && |s.evidence| + |skipped| == i
      invariant Consistent(s, budget, perWork)
    {
      var skip, next;
      if results[i].web {
        next, skip := StepWeb(s, results[i], budget, perWork);
      } else {
        next, skip := StepLocal(s, results[i], budget, perWork);
      }
      ProgressStep(results, i, budget, maxEvidence, perWork, s, next, skipped, skip);
      StepLength(s, next, skip, results[i], budget, perWork);
      stopped := skip == Some(TokenBudgetExhausted);
      s, i := next, i + 1;
      if skip.Some? {
        skipped := skipped + [skip.value];
        if skip.value == TokenBudgetExhausted { break; }
      }
    }
    HaltedStays(results, i, budget, maxEvidence, perWork);
    evidence := s.evidence;
  }

  method AssembleContextBundle(query: string, mode: string, results: seq<Candidate>, budget: int,
                               maxEvidence: int, perWork: int)
    returns (res: Result<ContextBundle, Error>, skipped: seq<Reason>)
    ensures res.Ok? <==> ValidArguments(query, mode, budget, maxEvidence, perWork)
    ensures res.Ok? ==>
              var b := res.value;
              && b.query == Strip(query) && b.retrievalMode == mode && b.tokenBudget == budget
              && b.contextText == ContextText(b.evidence) && b.tokenCount == TokenCount(b.contextText)
              && b.evidence == Progressed(results, budget, maxEvidence, perWork).evidence
              && skipped == Progressed(results, budget, maxEvidence, perWork).skipped
              && Sound(b.evidence, budget) && Diverse(b.evidence, perWork)
              && |b.evidence| <= maxEvidence && |b.evidence| + |skipped| <= |results|
              && (b.evidence != [] ==> ValidBundle(b))
  {
    hide *;
    ArgumentsAre(query, mode, budget, maxEvidence, perWork);
    skipped := [];
    if Blank(query) || (mode != "fast" && mode != "accurate") || budget < 100 || budget > 100_000
       || maxEvidence < 1 || maxEvidence > 50 || perWork < 1 || perWork > 20 {
      return Err(ValueError), [];
    }
    var evidence;
    evidence, skipped := SelectEvidence(results, budget, maxEvidence, perWork);
    var text := ContextText(evidence);
    var bundle := ContextBundle(Strip(query), mode, evidence, text, budget, TokenCount(text));
    if evidence != [] {
      StripKeepsInk(query);
      SoundIsValid(bundle);
    }
    res := Ok(bundle);
  }

  lemma ArgumentsAre(query: string, mode: string, budget: int, maxEvidence: int, perWork: int)
    ensures ValidArguments(query, mode, budget, maxEvidence, perWork) <==>
              && !Blank(query) && (mode == "fast" || mode == "accurate")
              && 100 <= budget <= 100_000 && 1 <= maxEvidence <= 50 && 1 <= perWork <= 20
  {
  }

  lemma StepLength(s: Selection, r: Selection, skip: Option<Reason>, c: Candidate, budget: int, perWork: nat)
    requires StepsTo(s, r, skip, if c.web then DecideWeb(s.evidence, c, budget)
                                 else DecideLocal(s.evidence, s.prints, c, budget, perWork))
    ensures |r.evidence| == |s.evidence| + if skip.Some? then 0 else 1
  {
    hide DecideWeb, DecideLocal;
  }

  lemma EmptyStart(budget: int, perWork: nat)
    requires budget >= 0
    ensures Sound([], budget) && Diverse([], perWork) && Linked([], {}, map[], map[], {})
  {
    CountIsTokenCount("");
  }

  lemma WebIdentity(c: Candidate, sourceId: string, content: string)
    requires c.web && IsSourceId(sourceId) && CandidateItem(c, sourceId, content, [], []).Some?
    ensures CandidateItem(c, sourceId, content, [], []).value.canonicalId == Identity(c)
  {
  }

  /** The producer and the consumer agree: whatever candidates come in, a bundle
      with evidence passes the validator without an issue. */
  method AssembleAndValidate(query: string, mode: string, results: seq<Candidate>, budget: int,
                             maxEvidence: int, perWork: int)
    returns (res: Result<ContextBundle, Error>, issues: seq<Issue>)
    ensures res.Ok? && res.value.evidence != [] ==> issues == []
    ensures res.Ok? && res.value.evidence == [] ==> issues != []
  {
    hide ValidMetadata, TokenCount, Sound, Diverse;
    var skipped;
    res, skipped := AssembleContextBundle(query, mode, results, budget, maxEvidence, perWork);
    issues := [];
    if res.Ok? {
      issues := ValidateContextBundle(res.value);
    }
  }
}
