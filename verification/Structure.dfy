/** Recovering the section tree of a document from its ordered blocks.

    Heading levels, false-heading tests, zones and searchability are inputs of
    each block; the section stack, block ownership and related text are computed. */
module Structure {
  import opened Wrappers

  datatype Raw = Raw(
    blockId: Option<string>, blockType: string, page: int, text: string,
    titleLevelOne: bool, falseHeading: bool, level: nat, searchable: bool)

  datatype Section = Section(
    title: string, level: nat, path: seq<string>, headingBlock: Option<string>,
    blockIds: seq<string>, pageStart: int, pageEnd: int)

  /** A block with the number of the section that owns it, if any. */
  datatype Enriched = Enriched(
    blockId: Option<string>, blockType: string, section: Option<nat>, path: seq<string>,
    searchable: bool, related: seq<string>)

  // ----- the declarative section tree -----

  datatype Heading = Heading(title: string, level: nat)

  /** The last position before `end` whose level is below `level`. */
  function Nearest(hs: seq<Heading>, end: nat, level: nat): (r: Option<nat>)
    requires end <= |hs|
    ensures r.Some? ==> r.value < end && hs[r.value].level < level
                        && forall k :: r.value < k < end ==> hs[k].level >= level
    ensures r == None ==> forall k :: 0 <= k < end ==> hs[k].level >= level
  {
    if end == 0 then None
    else if hs[end - 1].level < level then Some(end - 1)
    else Nearest(hs, end - 1, level)
  }

  function Parent(hs: seq<Heading>, i: nat): Option<nat>
    requires i < |hs|
  {
    Nearest(hs, i, hs[i].level)
  }

  predicate InRange(chain: seq<nat>, n: nat) {
    forall k :: 0 <= k < |chain| ==> chain[k] < n
  }

  /** A section's ancestors from the root, and itself. */
  function Chain(hs: seq<Heading>, i: nat): (r: seq<nat>)
    requires i < |hs|
    ensures r != [] && r[|r| - 1] == i && InRange(r, i + 1)
    ensures forall k :: 0 <= k < |r| - 1 ==> r[k] < r[k + 1] && hs[r[k]].level < hs[r[k + 1]].level
  {
    match Parent(hs, i)
    case None => [i]
    case Some(p) => Chain(hs, p) + [i]
  }

  function Titles(hs: seq<Heading>, chain: seq<nat>): (r: seq<string>)
    requires InRange(chain, |hs|)
    ensures |r| == |chain|
    ensures forall k :: 0 <= k < |chain| ==> r[k] == hs[chain[k]].title
  {
    if chain == [] then []
    else Titles(hs, chain[..|chain| - 1]) + [hs[chain[|chain| - 1]].title]
  }

  /** The title chain through the nearest earlier sections of lower level. */
  function PathOf(hs: seq<Heading>, i: nat): seq<string>
    requires i < |hs|
  {
    Titles(hs, Chain(hs, i))
  }

  /** The stack for the ancestors of position `at`, empty when there is none. */
  function StackAt(hs: seq<Heading>, at: Option<nat>): (r: seq<nat>)
    requires at.Some? ==> at.value < |hs|
    ensures InRange(r, |hs|)
  {
    if at == None then [] else Chain(hs, at.value)
  }

  function Next(at: Option<nat>): nat {
    if at == None then 0 else at.value + 1
  }

  /** Everything between a section and its parent is at least as deep. */
  lemma NearestSkipsToParent(hs: seq<Heading>, i: nat, level: nat)
    requires i < |hs| && hs[i].level >= level
    ensures Nearest(hs, i + 1, level) == Nearest(hs, Next(Parent(hs, i)), level)
  {
    SkipDeep(hs, Next(Parent(hs, i)), i, level);
  }

  lemma {:induction false} SkipDeep(hs: seq<Heading>, from: nat, end: nat, level: nat)
    requires from <= end <= |hs| && forall k :: from <= k < end ==> hs[k].level >= level
    ensures Nearest(hs, end, level) == Nearest(hs, from, level)
    decreases end
  {
    if from < end {
      SkipDeep(hs, from, end - 1, level);
    }
  }

  lemma {:induction false} NearestPrefix(hs: seq<Heading>, more: seq<Heading>, end: nat, level: nat)
    requires end <= |hs|
    ensures Nearest(hs + more, end, level) == Nearest(hs, end, level)
  {
    if end > 0 {
      NearestPrefix(hs, more, end - 1, level);
    }
  }

  lemma {:induction false} ChainPrefix(hs: seq<Heading>, more: seq<Heading>, i: nat)
    requires i < |hs|
    ensures Chain(hs + more, i) == Chain(hs, i) && PathOf(hs + more, i) == PathOf(hs, i)
    decreases i
  {
    NearestPrefix(hs, more, i, hs[i].level);
    match Parent(hs, i)
    case None =>
    case Some(p) => ChainPrefix(hs, more, p);
    TitlesPrefix(hs, more, Chain(hs, i));
  }

  lemma TitlesPrefix(hs: seq<Heading>, more: seq<Heading>, chain: seq<nat>)
    requires InRange(chain, |hs|)
    ensures Titles(hs + more, chain) == Titles(hs, chain)
  {
    var a, b := Titles(hs + more, chain), Titles(hs, chain);
    assert forall k :: 0 <= k < |chain| ==> a[k] == b[k];
  }

  // ----- what the sections and blocks must be -----

  function HeadingsOf(sections: seq<Section>): (r: seq<Heading>)
    ensures |r| == |sections|
    ensures forall i :: 0 <= i < |sections| ==> r[i] == Heading(sections[i].title, sections[i].level)
  {
    seq(|sections|, i requires 0 <= i < |sections| => Heading(sections[i].title, sections[i].level))
  }

  /** Every section's path is its declarative path. */
  predicate PathsOk(sections: seq<Section>) {
    forall i :: 0 <= i < |sections| ==> sections[i].path == PathOf(HeadingsOf(sections), i)
  }

  predicate IsHeading(b: Raw) {
    b.blockType == "title"
  }

  function OwnedIds(sections: seq<Section>): seq<string> {
    if sections == [] then []
    else OwnedIds(sections[..|sections| - 1]) + sections[|sections| - 1].blockIds
  }

  /** A block opens a section unless it is the document title, false or empty. */
  predicate Opens(b: Raw, titleSeen: bool) {
    IsHeading(b) && !(!titleSeen && b.titleLevelOne) && !b.falseHeading && b.text != ""
  }

  predicate TitleSeen(raw: seq<Raw>) {
    exists b :: b in raw && IsHeading(b) && b.titleLevelOne
  }

  /** The headings that open sections, in order. */
  function OpenedHeadings(raw: seq<Raw>): seq<Heading> {
    if raw == [] then []
    else
      var init, b := raw[..|raw| - 1], raw[|raw| - 1];
      OpenedHeadings(init) + if Opens(b, TitleSeen(init)) then [Heading(b.text, b.level)] else []
  }

  /** The string ids of the non-heading blocks after the first section heading. */
  function BodyIds(raw: seq<Raw>): seq<string> {
    if raw == [] then []
    else
      var init, b := raw[..|raw| - 1], raw[|raw| - 1];
      BodyIds(init) + if OpenedHeadings(init) != [] && !IsHeading(b) && b.blockId.Some? then [b.blockId.value] else []
  }

  /** A non-heading block joins the section on top: its id and its page. */
  function Owning(sections: seq<Section>, b: Raw): seq<Section> {
    if sections == [] || IsHeading(b) then sections
    else
      var last := sections[|sections| - 1];
      var ids := if b.blockId.Some? then [b.blockId.value] else [];
      sections[|sections| - 1 := last.(blockIds := last.blockIds + ids,
                                       pageEnd := if b.page > last.pageEnd then b.page else last.pageEnd)]
  }

  /** The sections as the declarative tree has them: one for each opened heading,
      with the path of its nearest shallower ancestors, owning the blocks up to the
      next heading. */
  function Tree(raw: seq<Raw>): (r: seq<Section>)
    ensures |r| == |OpenedHeadings(raw)|
  {
    if raw == [] then []
    else
      var init, b := raw[..|raw| - 1], raw[|raw| - 1];
      var grown :=
        if Opens(b, TitleSeen(init))
        then Tree(init) + [Section(b.text, b.level, PathOf(OpenedHeadings(raw), |Tree(init)|), b.blockId, [], b.page, b.page)]
        else Tree(init);
      Owning(grown, b)
  }

  lemma TreeSnoc(raw: seq<Raw>, b: Raw)
    ensures Tree(raw + [b]) == Owning(
              if Opens(b, TitleSeen(raw))
              then Tree(raw) + [Section(b.text, b.level, PathOf(OpenedHeadings(raw + [b]), |Tree(raw)|), b.blockId, [], b.page, b.page)]
              else Tree(raw), b)
  {
    assert (raw + [b])[..|raw|] == raw;
  }

  lemma TitleSeenSnoc(raw: seq<Raw>, b: Raw)
    ensures TitleSeen(raw + [b]) == (TitleSeen(raw) || (IsHeading(b) && b.titleLevelOne))
  {
    if TitleSeen(raw) {
      var x :| x in raw && IsHeading(x) && x.titleLevelOne;
      assert x in raw + [b];
    }
    assert b in raw + [b];
  }

  lemma RawSnoc(raw: seq<Raw>, b: Raw)
    ensures OpenedHeadings(raw + [b]) ==
            OpenedHeadings(raw) + if Opens(b, TitleSeen(raw)) then [Heading(b.text, b.level)] else []
    ensures BodyIds(raw + [b]) == BodyIds(raw) +
            if OpenedHeadings(raw) != [] && !IsHeading(b) && b.blockId.Some? then [b.blockId.value] else []
  {
    assert (raw + [b])[..|raw|] == raw;
  }

  /** A block belongs to the latest section opened at or before it. */
  predicate BlocksOk(blocks: seq<Enriched>, sections: seq<Section>) {
    && (forall i :: 0 <= i < |blocks| ==>
          match blocks[i].section
          case None => blocks[i].path == []
          case Some(n) => n < |sections| && blocks[i].path == sections[n].path)
    && (forall i, k :: 0 <= i <= k < |blocks| ==> Next(blocks[i].section) <= Next(blocks[k].section))
    && (blocks != [] ==> Next(blocks[|blocks| - 1].section) <= |sections|)
  }

  // ----- the loop over blocks -----

  /** Popping: afterwards the top is the nearest earlier section of lower level. */
  method PopTo(sections: seq<Section>, stack: seq<nat>, level: nat) returns (r: seq<nat>)
    requires stack == StackAt(HeadingsOf(sections), if sections == [] then None else Some(|sections| - 1))
    ensures r == StackAt(HeadingsOf(sections), Nearest(HeadingsOf(sections), |sections|, level))
  {
    hide Chain, Nearest, StackAt, HeadingsOf, Parent;
    ghost var hs := HeadingsOf(sections);
    ghost var at: Option<nat> := if sections == [] then None else Some(|sections| - 1);
    r := stack;
    StackEnds(hs, at);
    while r != [] && sections[r[|r| - 1]].level >= level
      invariant at.Some? ==> at.value < |hs|
      invariant r == StackAt(hs, at)
      invariant r == [] <==> at == None
      invariant r != [] ==> r[|r| - 1] == at.value
      invariant Nearest(hs, |hs|, level) == Nearest(hs, Next(at), level)
      decreases |r|
    {
      NearestSkipsToParent(hs, at.value, level);
      PopOne(hs, at.value);
      at := Parent(hs, at.value);
      r := r[..|r| - 1];
      StackEnds(hs, at);
    }
    NearestStops(hs, at, level);
  }

  lemma StackEnds(hs: seq<Heading>, at: Option<nat>)
    requires at.Some? ==> at.value < |hs|
    ensures StackAt(hs, at) == [] <==> at == None
    ensures at.Some? ==> StackAt(hs, at)[|StackAt(hs, at)| - 1] == at.value
  {
    hide *;
    StackTop(hs, at);
    if at.Some? { assert Chain(hs, at.value) != []; }
  }

  lemma PopOne(hs: seq<Heading>, i: nat)
    requires i < |hs|
    ensures Parent(hs, i).Some? ==> Parent(hs, i).value < |hs|
    ensures StackAt(hs, Some(i)) != [] && StackAt(hs, Some(i))[..|StackAt(hs, Some(i))| - 1] == StackAt(hs, Parent(hs, i))
  {
    hide Nearest, InRange;
    StackTop(hs, Some(i));
    ChainBelow(hs, i);
  }

  lemma StackTop(hs: seq<Heading>, at: Option<nat>)
    requires at.Some? ==> at.value < |hs|
    ensures StackAt(hs, at) == if at == None then [] else Chain(hs, at.value)
  {
    hide Chain, InRange;
  }

  lemma NearestStops(hs: seq<Heading>, at: Option<nat>, level: nat)
    requires at.Some? ==> at.value < |hs| && hs[at.value].level < level
    ensures Nearest(hs, Next(at), level) == at
  {
  }

  lemma ChainBelow(hs: seq<Heading>, i: nat)
    requires i < |hs|
    ensures Chain(hs, i) == StackAt(hs, Parent(hs, i)) + [i]
  {
  }

  lemma PathsSnoc(sections: seq<Section>, stack: seq<nat>, section: Section)
    requires PathsOk(sections)
    requires stack == StackAt(HeadingsOf(sections), Nearest(HeadingsOf(sections), |sections|, section.level))
    requires section.path == Titles(HeadingsOf(sections), stack) + [section.title]
    ensures PathsOk(sections + [section])
    ensures StackAt(HeadingsOf(sections + [section]), Some(|sections|)) == stack + [|sections|]
  {
    hide *;
    HeadingsSnoc(sections, section);
    NewPath(HeadingsOf(sections), Heading(section.title, section.level), stack);
    PathsOkSnoc(sections, section);
    StackTop(HeadingsOf(sections + [section]), Some(|sections|));
  }

  lemma PathsOkSnoc(sections: seq<Section>, section: Section)
    requires PathsOk(sections)
    requires section.path == PathOf(HeadingsOf(sections) + [Heading(section.title, section.level)], |sections|)
    ensures PathsOk(sections + [section])
  {
    hide PathOf, HeadingsOf;
    var hs, h := HeadingsOf(sections), Heading(section.title, section.level);
    HeadingsSnoc(sections, section);
    forall i | 0 <= i < |sections| ensures (sections + [section])[i].path == PathOf(hs + [h], i) {
      ChainPrefix(hs, [h], i);
    }
  }

  lemma HeadingsSnoc(sections: seq<Section>, section: Section)
    ensures HeadingsOf(sections + [section]) == HeadingsOf(sections) + [Heading(section.title, section.level)]
  {
  }

  lemma NewPath(hs: seq<Heading>, h: Heading, stack: seq<nat>)
    requires stack == StackAt(hs, Nearest(hs, |hs|, h.level))
    ensures Chain(hs + [h], |hs|) == stack + [|hs|]
    ensures PathOf(hs + [h], |hs|) == Titles(hs, stack) + [h.title]
  {
    hide Chain, Titles, Nearest, InRange, StackAt;
    NewChain(hs, h);
    TitlesSnoc(hs, h, stack);
  }

  lemma NewChain(hs: seq<Heading>, h: Heading)
    ensures Chain(hs + [h], |hs|) == StackAt(hs, Nearest(hs, |hs|, h.level)) + [|hs|]
  {
    hide Nearest;
    NearestPrefix(hs, [h], |hs|, h.level);
    ChainBelow(hs + [h], |hs|);
    match Nearest(hs, |hs|, h.level)
    case None =>
    case Some(p) => ChainPrefix(hs, [h], p);
  }

  lemma TitlesSnoc(hs: seq<Heading>, h: Heading, stack: seq<nat>)
    requires InRange(stack, |hs|)
    ensures Titles(hs + [h], stack + [|hs|]) == Titles(hs, stack) + [h.title]
  {
    TitlesPrefix(hs, [h], stack);
    assert (stack + [|hs|])[..|stack|] == stack;
  }

  lemma OwnedSnoc(sections: seq<Section>, section: Section)
    ensures OwnedIds(sections + [section]) == OwnedIds(sections) + section.blockIds
  {
    assert (sections + [section])[..|sections|] == sections;
  }

  /** Adding an id to the last section adds it at the end of the list of all. */
  lemma OwnedAppend(sections: seq<Section>, updated: Section, ids: seq<string>)
    requires sections != [] && updated.blockIds == sections[|sections| - 1].blockIds + ids
    ensures OwnedIds(sections[|sections| - 1 := updated]) == OwnedIds(sections) + ids
  {
    var n := |sections| - 1;
    assert sections[n := updated][..n] == sections[..n];
  }

  lemma PathsUpdate(sections: seq<Section>, updated: Section)
    requires sections != [] && PathsOk(sections)
    requires var last := sections[|sections| - 1];
             updated.title == last.title && updated.level == last.level && updated.path == last.path
    ensures PathsOk(sections[|sections| - 1 := updated])
    ensures HeadingsOf(sections[|sections| - 1 := updated]) == HeadingsOf(sections)
  {
    hide PathOf;
    assert HeadingsOf(sections[|sections| - 1 := updated]) == HeadingsOf(sections);
  }

  /** The loop's state after the blocks `done`. */
  predicate Consistent(done: seq<Raw>, sections: seq<Section>, stack: seq<nat>, blocks: seq<Enriched>) {
    && HeadingsOf(sections) == OpenedHeadings(done) && PathsOk(sections)
    && stack == StackAt(HeadingsOf(sections), if sections == [] then None else Some(|sections| - 1))
    && sections == Tree(done) && OwnedIds(sections) == BodyIds(done)
    && |blocks| == |done| && BlocksOk(blocks, sections)
    && forall k :: 0 <= k < |done| ==> Copies(blocks[k], done[k]) && OwnedBy(done, k, blocks[k])
  }

  /** The owner is the latest section opened at or before the block. */
  predicate OwnedBy(raw: seq<Raw>, k: nat, e: Enriched)
    requires k < |raw|
  {
    Next(e.section) == |OpenedHeadings(raw[..k + 1])|
  }

  predicate Copies(e: Enriched, b: Raw) {
    e.blockId == b.blockId && e.blockType == b.blockType && e.searchable == b.searchable && e.related == []
  }

  /** A heading that opens a section: pop, record, push. */
  method OpenSection(sections: seq<Section>, stack: seq<nat>, b: Raw)
    returns (sections': seq<Section>, stack': seq<nat>)
    requires PathsOk(sections)
    requires stack == StackAt(HeadingsOf(sections), if sections == [] then None else Some(|sections| - 1))
    ensures PathsOk(sections') && |sections'| == |sections| + 1 && sections'[..|sections|] == sections
    ensures HeadingsOf(sections') == HeadingsOf(sections) + [Heading(b.text, b.level)]
    ensures stack' == StackAt(HeadingsOf(sections'), Some(|sections|))
    ensures OwnedIds(sections') == OwnedIds(sections)
    ensures sections'[|sections|] ==
            Section(b.text, b.level, PathOf(HeadingsOf(sections'), |sections|), b.blockId, [], b.page, b.page)
  {
    hide StackAt, Nearest, Titles, OwnedIds, PathOf;
    var popped := PopTo(sections, stack, b.level);
    var section := Section(b.text, b.level, TitlesOf(sections, popped) + [b.text], b.blockId, [], b.page, b.page);
    PathsSnoc(sections, popped, section);
    OwnedSnoc(sections, section);
    stack' := popped + [|sections|];
    sections' := sections + [section];
  }

  /** The block is recorded under the top section, which takes over its id. */
  method OwnBlock(sections: seq<Section>, stack: seq<nat>, b: Raw)
    returns (sections': seq<Section>, block: Enriched)
    requires PathsOk(sections)
    requires stack == StackAt(HeadingsOf(sections), if sections == [] then None else Some(|sections| - 1))
    ensures PathsOk(sections') && HeadingsOf(sections') == HeadingsOf(sections)
    ensures forall i :: 0 <= i < |sections| ==> sections'[i].path == sections[i].path
    ensures OwnedIds(sections') == OwnedIds(sections) +
            if sections != [] && !IsHeading(b) && b.blockId.Some? then [b.blockId.value] else []
    ensures sections' == Owning(sections, b)
    ensures Copies(block, b) && Next(block.section) == |sections|
    ensures block.path == if sections == [] then [] else sections[|sections| - 1].path
  {
    hide StackAt, PathsOk, OwnedIds;
    sections' := sections;
    TopIsLast(HeadingsOf(sections), stack);
    var owner: Option<nat> := if stack == [] then None else Some(stack[|stack| - 1]);
    block := Enriched(b.blockId, b.blockType, owner, if owner == None then [] else sections[owner.value].path,
                      b.searchable, []);
    if owner.Some? && b.blockType != "title" {
      var section := sections[owner.value];
      var ids := if b.blockId.Some? then [b.blockId.value] else [];
      var updated := section.(blockIds := section.blockIds + ids,
                              pageEnd := if b.page > section.pageEnd then b.page else section.pageEnd);
      OwnedAppend(sections, updated, ids);
      PathsUpdate(sections, updated);
      sections' := sections[owner.value := updated];
    }
  }

  method CollectSections(raw: seq<Raw>) returns (sections: seq<Section>, blocks: seq<Enriched>)
    ensures exists stack :: Consistent(raw, sections, stack, blocks)
  {
    hide StackAt, TitleSeen, PathsOk, OpenedHeadings, BodyIds, OwnedIds, HeadingsOf, Opens, Consistent;
    sections, blocks := [], [];
    var stack: seq<nat>, titleSeen := [], false;
    NothingYet();
    for i := 0 to |raw|
      invariant titleSeen == TitleSeen(raw[..i])
      invariant Consistent(raw[..i], sections, stack, blocks)
    {
      var b := raw[i];
      assert raw[..i + 1] == raw[..i] + [b];
      TitleSeenSnoc(raw[..i], b);
      sections, stack, blocks := AddBlock(raw[..i], sections, stack, blocks, b, titleSeen);
      if b.blockType == "title" && !titleSeen && b.titleLevelOne {
        titleSeen := true;
      }
    }
    assert raw[..|raw|] == raw;
  }

  method AddBlock(ghost done: seq<Raw>, sections: seq<Section>, stack: seq<nat>, blocks: seq<Enriched>,
                  b: Raw, titleSeen: bool)
    returns (sections': seq<Section>, stack': seq<nat>, blocks': seq<Enriched>)
    requires Consistent(done, sections, stack, blocks) && titleSeen == TitleSeen(done)
    ensures Consistent(done + [b], sections', stack', blocks')
  {
    hide StackAt, TitleSeen, PathsOk, OpenedHeadings, BodyIds, OwnedIds, Tree, Owning, Copies, BlocksOk, PathOf;
    RawSnoc(done, b);
    TreeSnoc(done, b);
    sections', stack' := sections, stack;
    if b.blockType == "title" && !titleSeen && b.titleLevelOne {
    } else if b.blockType == "title" && !b.falseHeading && b.text != "" {
      sections', stack' := OpenSection(sections, stack, b);
      assert sections' == sections + [sections'[|sections|]];
    }
    assert HeadingsOf(sections') == OpenedHeadings(done + [b]);
    BlocksGrow(blocks, sections, sections');
    var block;
    ghost var before := sections';
    sections', block := OwnBlock(sections', stack', b);
    assert sections' == Tree(done + [b]);
    assert OwnedIds(sections') == BodyIds(done + [b]);
    BlocksAppend(blocks, before, sections', block);
    blocks' := blocks + [block];
    OwnersSnoc(done, b, blocks, block);
  }

  lemma OwnersSnoc(done: seq<Raw>, b: Raw, blocks: seq<Enriched>, block: Enriched)
    requires |blocks| == |done| && Next(block.section) == |OpenedHeadings(done + [b])| && Copies(block, b)
    requires forall k :: 0 <= k < |done| ==> Copies(blocks[k], done[k]) && OwnedBy(done, k, blocks[k])
    ensures forall k :: 0 <= k < |done| + 1 ==>
              Copies((blocks + [block])[k], (done + [b])[k]) && OwnedBy(done + [b], k, (blocks + [block])[k])
  {
    hide OpenedHeadings, Copies;
    var all := done + [b];
    forall k | 0 <= k < |all| ensures Copies((blocks + [block])[k], all[k]) && OwnedBy(all, k, (blocks + [block])[k]) {
      if k < |done| {
        assert all[..k + 1] == done[..k + 1];
        assert OwnedBy(done, k, blocks[k]);
      } else {
        assert all[..k + 1] == all;
      }
    }
  }

  lemma BlocksGrow(blocks: seq<Enriched>, sections: seq<Section>, sections': seq<Section>)
    requires BlocksOk(blocks, sections)
    requires |sections| <= |sections'| && sections'[..|sections|] == sections
    ensures BlocksOk(blocks, sections')
  {
    forall i, n: nat | 0 <= i < |blocks| && blocks[i].section == Some(n) ensures blocks[i].path == sections'[n].path {
      assert sections'[..|sections|][n] == sections'[n];
    }
  }

  lemma BlocksAppend(blocks: seq<Enriched>, sections: seq<Section>, sections': seq<Section>, block: Enriched)
    requires BlocksOk(blocks, sections) && |sections'| == |sections|
    requires forall i :: 0 <= i < |sections| ==> sections'[i].path == sections[i].path
    requires Next(block.section) == |sections|
    requires block.path == if sections == [] then [] else sections[|sections| - 1].path
    ensures BlocksOk(blocks + [block], sections')
  {
    var all := blocks + [block];
    forall i, k | 0 <= i <= k < |all| ensures Next(all[i].section) <= Next(all[k].section) {
      if k == |blocks| && i < k {
        assert Next(blocks[i].section) <= Next(blocks[|blocks| - 1].section);
      }
    }
  }

  lemma NothingYet()
    ensures !TitleSeen([]) && Consistent([], [], [], [])
  {
  }

  lemma TopIsLast(hs: seq<Heading>, stack: seq<nat>)
    requires stack == StackAt(hs, if hs == [] then None else Some(|hs| - 1))
    ensures hs == [] <==> stack == []
    ensures stack != [] ==> stack[|stack| - 1] == |hs| - 1
  {
  }

  function TitlesOf(sections: seq<Section>, stack: seq<nat>): (r: seq<string>)
    requires InRange(stack, |sections|)
    ensures r == Titles(HeadingsOf(sections), stack)
  {
    var r := seq(|stack|, k requires 0 <= k < |stack| => sections[stack[k]].title);
    assert r == Titles(HeadingsOf(sections), stack);
    r
  }

  // ----- related text of assets -----

  predicate IsAsset(b: Enriched) {
    b.blockType == "equation" || b.blockType == "figure" || b.blockType == "table" || b.blockType == "algorithm"
  }

  /** Searchable text. */
  predicate IsText(b: Enriched) {
    b.searchable && (b.blockType == "paragraph" || b.blockType == "list" || b.blockType == "algorithm")
  }

  predicate Neighbour(blocks: seq<Enriched>, index: nat, k: nat)
    requires index < |blocks| && k < |blocks|
  {
    IsText(blocks[k]) && blocks[k].section == blocks[index].section
  }

  predicate SectionsInOrder(blocks: seq<Enriched>) {
    forall i, k :: 0 <= i <= k < |blocks| ==> Next(blocks[i].section) <= Next(blocks[k].section)
  }

  function IdOf(b: Enriched): seq<string> {
    if b.blockId.Some? then [b.blockId.value] else []
  }

  /** The id of the last text of the same section before `end`, wherever it is. */
  function TextBefore(blocks: seq<Enriched>, index: nat, end: nat): seq<string>
    requires index < |blocks| && end <= index
  {
    if end == 0 then []
    else if Neighbour(blocks, index, end - 1) then IdOf(blocks[end - 1])
    else TextBefore(blocks, index, end - 1)
  }

  function TextAfter(blocks: seq<Enriched>, index: nat, start: nat): seq<string>
    requires index < start <= |blocks|
    decreases |blocks| - start
  {
    if start == |blocks| then []
    else if Neighbour(blocks, index, start) then IdOf(blocks[start])
    else TextAfter(blocks, index, start + 1)
  }

  lemma {:induction false} NoneBefore(blocks: seq<Enriched>, index: nat, end: nat)
    requires index < |blocks| && end <= index
    requires forall k: nat :: k < end ==> !Neighbour(blocks, index, k)
    ensures TextBefore(blocks, index, end) == []
  {
    hide Neighbour;
    if end > 0 {
      NoneBefore(blocks, index, end - 1);
    }
  }

  lemma {:induction false} NoneAfter(blocks: seq<Enriched>, index: nat, start: nat)
    requires index < start <= |blocks|
    requires forall k: nat :: start <= k < |blocks| ==> !Neighbour(blocks, index, k)
    ensures TextAfter(blocks, index, start) == []
    decreases |blocks| - start
  {
    hide Neighbour;
    if start < |blocks| {
      NoneAfter(blocks, index, start + 1);
    }
  }

  /** Both searches find the nearest neighbour, however far away it lies. */
  lemma {:induction false} BeforeIsNearest(blocks: seq<Enriched>, index: nat, end: nat, k: nat)
    requires index < |blocks| && k < end <= index && Neighbour(blocks, index, k)
    requires forall j :: k < j < end ==> !Neighbour(blocks, index, j)
    ensures TextBefore(blocks, index, end) == IdOf(blocks[k])
  {
    hide Neighbour;
    if k < end - 1 {
      BeforeIsNearest(blocks, index, end - 1, k);
    }
  }

  lemma {:induction false} AfterIsNearest(blocks: seq<Enriched>, index: nat, start: nat, k: nat)
    requires index < start <= k < |blocks| && Neighbour(blocks, index, k)
    requires forall j :: start <= j < k ==> !Neighbour(blocks, index, j)
    ensures TextAfter(blocks, index, start) == IdOf(blocks[k])
    decreases |blocks| - start
  {
    hide Neighbour;
    if start < k {
      AfterIsNearest(blocks, index, start + 1, k);
    }
  }

  /** The cursor stops at the first block of another section; because sections
      never resume, nothing of this section lies beyond. */
  method ScanBack(blocks: seq<Enriched>, index: nat) returns (ids: seq<string>)
    requires index < |blocks| && SectionsInOrder(blocks)
    ensures ids == TextBefore(blocks, index, index)
  {
    hide IsText;
    var cursor := index;
    while cursor > 0
      invariant 0 <= cursor <= index
      invariant TextBefore(blocks, index, index) == TextBefore(blocks, index, cursor)
    {
      cursor := cursor - 1;
      if blocks[cursor].section != blocks[index].section {
        forall j: nat | j < cursor + 1 ensures !Neighbour(blocks, index, j) {
          assert Next(blocks[j].section) <= Next(blocks[cursor].section) <= Next(blocks[index].section);
        }
        NoneBefore(blocks, index, cursor + 1);
        return [];
      }
      if IsText(blocks[cursor]) {
        return IdOf(blocks[cursor]);
      }
    }
    return [];
  }

  method ScanForward(blocks: seq<Enriched>, index: nat) returns (ids: seq<string>)
    requires index < |blocks| && SectionsInOrder(blocks)
    ensures ids == TextAfter(blocks, index, index + 1)
  {
    hide IsText;
    var cursor := index + 1;
    while cursor < |blocks|
      invariant index < cursor <= |blocks|
      invariant TextAfter(blocks, index, index + 1) == TextAfter(blocks, index, cursor)
    {
      if blocks[cursor].section != blocks[index].section {
        forall j: nat | cursor <= j < |blocks| ensures !Neighbour(blocks, index, j) {
          assert Next(blocks[index].section) <= Next(blocks[cursor].section) <= Next(blocks[j].section);
        }
        NoneAfter(blocks, index, cursor);
        return [];
      }
      if IsText(blocks[cursor]) {
        return IdOf(blocks[cursor]);
      }
      cursor := cursor + 1;
    }
    return [];
  }

  function RelatedIds(blocks: seq<Enriched>, index: nat): seq<string>
    requires index < |blocks|
  {
    if IsAsset(blocks[index]) && blocks[index].searchable
    then TextBefore(blocks, index, index) + TextAfter(blocks, index, index + 1)
    else []
  }

  /** Text of the section of `index` that a search may find. */
  ghost predicate TextThere(blocks: seq<Enriched>, index: nat, k: nat)
    requires index < |blocks| && k < |blocks|
  {
    && blocks[k].searchable && blocks[k].section == blocks[index].section
    && blocks[k].blockType in {"paragraph", "list", "algorithm"}
  }

  /** `ids` holds the id of `found`, the nearest text on one side, if there is one. */
  ghost predicate Names(ids: seq<string>, found: Enriched) {
    match found.blockId
    case None => ids == []
    case Some(id) => ids == [id]
  }

  ghost predicate LastText(blocks: seq<Enriched>, index: nat, ids: seq<string>)
    requires index < |blocks|
  {
    || ((forall k :: 0 <= k < index ==> !TextThere(blocks, index, k)) && ids == [])
    || exists k :: 0 <= k < index && TextThere(blocks, index, k) && Names(ids, blocks[k])
                   && forall j :: k < j < index ==> !TextThere(blocks, index, j)
  }

  ghost predicate FirstText(blocks: seq<Enriched>, index: nat, ids: seq<string>)
    requires index < |blocks|
  {
    || ((forall k :: index < k < |blocks| ==> !TextThere(blocks, index, k)) && ids == [])
    || exists k :: index < k < |blocks| && TextThere(blocks, index, k) && Names(ids, blocks[k])
                   && forall j :: index < j < k ==> !TextThere(blocks, index, j)
  }

  /** A searchable asset is related to the last text before it and the first text
      after it in its section; nothing else is related to anything. */
  ghost predicate RelatedOk(blocks: seq<Enriched>, index: nat)
    requires index < |blocks|
  {
    var e := blocks[index];
    if e.searchable && e.blockType in {"equation", "figure", "table", "algorithm"} then
      exists before, after :: e.related == before + after && LastText(blocks, index, before) && FirstText(blocks, index, after)
    else e.related == []
  }

  lemma NeighbourIff(blocks: seq<Enriched>, index: nat, k: nat)
    requires index < |blocks| && k < |blocks|
    ensures Neighbour(blocks, index, k) <==> TextThere(blocks, index, k)
    ensures Names(IdOf(blocks[k]), blocks[k])
    ensures IsAsset(blocks[k]) <==> blocks[k].blockType in {"equation", "figure", "table", "algorithm"}
  {
  }

  lemma BeforeIsLast(blocks: seq<Enriched>, index: nat)
    requires index < |blocks|
    ensures LastText(blocks, index, TextBefore(blocks, index, index))
  {
    hide TextThere, Neighbour, Names, IdOf, TextBefore;
    forall k | 0 <= k < index ensures Neighbour(blocks, index, k) <==> TextThere(blocks, index, k) {
      NeighbourIff(blocks, index, k);
    }
    var k := index;
    while k > 0 && !Neighbour(blocks, index, k - 1)
      invariant 0 <= k <= index && forall j :: k <= j < index ==> !Neighbour(blocks, index, j)
    {
      k := k - 1;
    }
    if k == 0 {
      NoneBefore(blocks, index, index);
    } else {
      BeforeIsNearest(blocks, index, index, k - 1);
      NeighbourIff(blocks, index, k - 1);
    }
  }

  lemma AfterIsFirst(blocks: seq<Enriched>, index: nat)
    requires index < |blocks|
    ensures FirstText(blocks, index, TextAfter(blocks, index, index + 1))
  {
    hide TextThere, Neighbour, Names, IdOf, TextAfter;
    forall k | index < k < |blocks| ensures Neighbour(blocks, index, k) <==> TextThere(blocks, index, k) {
      NeighbourIff(blocks, index, k);
    }
    var k := index + 1;
    while k < |blocks| && !Neighbour(blocks, index, k)
      invariant index < k <= |blocks| && forall j :: index < j < k ==> !Neighbour(blocks, index, j)
    {
      k := k + 1;
    }
    if k == |blocks| {
      NoneAfter(blocks, index, index + 1);
    } else {
      AfterIsNearest(blocks, index, index + 1, k);
      NeighbourIff(blocks, index, k);
    }
  }

  lemma RelatedIsOk(blocks: seq<Enriched>, index: nat)
    requires index < |blocks| && blocks[index].related == RelatedIds(blocks, index)
    ensures RelatedOk(blocks, index)
  {
    hide LastText, FirstText, TextBefore, TextAfter;
    NeighbourIff(blocks, index, index);
    BeforeIsLast(blocks, index);
    AfterIsFirst(blocks, index);
  }

  method BuildStructure(raw: seq<Raw>) returns (sections: seq<Section>, blocks: seq<Enriched>)
    ensures sections == Tree(raw)
    ensures HeadingsOf(sections) == OpenedHeadings(raw) && PathsOk(sections)
    ensures OwnedIds(sections) == BodyIds(raw)
    ensures |blocks| == |raw| && BlocksOk(blocks, sections)
    ensures forall i :: 0 <= i < |raw| ==>
              blocks[i].blockId == raw[i].blockId && OwnedBy(raw, i, blocks[i])
    ensures forall i :: 0 <= i < |raw| ==> RelatedOk(blocks, i)
  {
    hide RelatedOk, OpenedHeadings, PathsOk, BodyIds, OwnedIds, RelatedIds, Tree;
    var plain;
    sections, plain := CollectSections(raw);
    blocks := [];
    for index := 0 to |plain|
      invariant |blocks| == index
      invariant forall k :: 0 <= k < index ==> blocks[k] == plain[k].(related := RelatedIds(plain, k))
    {
      var related := [];
      if IsAsset(plain[index]) && plain[index].searchable {
        var before := ScanBack(plain, index);
        var after := ScanForward(plain, index);
        related := before + after;
      }
      assert related == RelatedIds(plain, index) by { RelatedIsFunction(plain, index, related); }
      blocks := blocks + [plain[index].(related := related)];
    }
    forall i | 0 <= i < |raw| ensures RelatedOk(blocks, i) {
      RelatedIgnoresRelated(blocks, plain, i);
      RelatedIsOk(blocks, i);
    }
  }

  lemma RelatedIsFunction(blocks: seq<Enriched>, index: nat, related: seq<string>)
    requires index < |blocks|
    requires related == if IsAsset(blocks[index]) && blocks[index].searchable
                        then TextBefore(blocks, index, index) + TextAfter(blocks, index, index + 1) else []
    ensures related == RelatedIds(blocks, index)
  {
  }

  lemma RelatedIgnoresRelated(a: seq<Enriched>, b: seq<Enriched>, i: nat)
    requires |a| == |b| && i < |a|
    requires forall k :: 0 <= k < |a| ==> a[k].(related := []) == b[k].(related := [])
    ensures RelatedIds(a, i) == RelatedIds(b, i)
  {
    hide IsAsset, TextBefore, TextAfter;
    SameBefore(a, b, i, i);
    SameAfter(a, b, i, i + 1);
    SameNeighbour(a, b, i, i);
  }

  lemma SameNeighbour(a: seq<Enriched>, b: seq<Enriched>, i: nat, k: nat)
    requires |a| == |b| && i < |a| && k < |a|
    requires a[i].(related := []) == b[i].(related := []) && a[k].(related := []) == b[k].(related := [])
    ensures Neighbour(a, i, k) == Neighbour(b, i, k) && IdOf(a[k]) == IdOf(b[k])
    ensures IsAsset(a[i]) == IsAsset(b[i]) && a[i].searchable == b[i].searchable
  {
  }

  lemma {:induction false} SameBefore(a: seq<Enriched>, b: seq<Enriched>, i: nat, end: nat)
    requires |a| == |b| && i < |a| && end <= i
    requires forall k :: 0 <= k < |a| ==> a[k].(related := []) == b[k].(related := [])
    ensures TextBefore(a, i, end) == TextBefore(b, i, end)
  {
    hide Neighbour, IdOf;
    if end > 0 {
      SameNeighbour(a, b, i, end - 1);
      SameBefore(a, b, i, end - 1);
    }
  }

  lemma {:induction false} SameAfter(a: seq<Enriched>, b: seq<Enriched>, i: nat, start: nat)
    requires |a| == |b| && i < start <= |a|
    requires forall k :: 0 <= k < |a| ==> a[k].(related := []) == b[k].(related := [])
    ensures TextAfter(a, i, start) == TextAfter(b, i, start)
    decreases |a| - start
  {
    hide Neighbour, IdOf;
    if start < |a| {
      SameNeighbour(a, b, i, start);
      SameAfter(a, b, i, start + 1);
    }
  }
}
