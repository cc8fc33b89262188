/** Packing the units of searchable blocks into chunks. */
module Chunker {
  import opened Wrappers
  import opened Text
  import opened Tokenization
  import opened TokenCounting
  import opened Splitting
  import opened Oversized

  /** A structured block as the chunker reads it; a field is None when it is
      missing or not a string. */
  datatype Block = Block(
    blockId: Option<string>, pageNumber: int, blockType: string, content: Option<string>,
    sectionId: Option<string>, sectionPath: seq<string>, zone: Option<string>,
    searchable: bool, related: seq<string>)

  datatype Unit = Unit(
    blockId: string, pageNumber: int, blockType: string, content: string,
    tokenCount: nat, related: seq<string>)

  /** A context taken over from an absorbed or a preceding chunk. */
  datatype Context = Context(
    sectionId: Option<string>, sectionPath: seq<string>, zone: Option<string>,
    blockIds: seq<string>, content: string, tokenCount: nat)

  datatype Chunk = Chunk(
    sectionId: Option<string>, sectionPath: seq<string>, zone: Option<string>,
    pageStart: int, pageEnd: int, blockIds: seq<string>, related: seq<string>,
    contentTypes: seq<string>, content: string, tokenCount: nat,
    parentContexts: seq<Context>, overlap: Option<Context>)

  const SEPARATOR: string := "\n\n"

  predicate Usable(b: Block) {
    b.searchable && b.blockId.Some? && b.content.Some? && b.content.value != ""
  }

  // ----- units -----

  predicate UnitOf(u: Unit, b: Block) {
    && b.blockId == Some(u.blockId) && u.pageNumber == b.pageNumber && u.blockType == b.blockType
    && u.related == b.related && u.content != "" && u.tokenCount == TokenCount(u.content)
  }

  function Contents(units: seq<Unit>): (r: seq<string>)
    ensures |r| == |units|
  {
    if units == [] then [] else Contents(units[..|units| - 1]) + [units[|units| - 1].content]
  }

  lemma {:induction false} ContentsConcat(a: seq<Unit>, b: seq<Unit>)
    ensures Contents(a + b) == Contents(a) + Contents(b)
  {
    if b == [] {
      assert a + b == a;
    } else {
      ContentsConcat(a, b[..|b| - 1]);
      assert (a + b)[..|a + b| - 1] == a + b[..|b| - 1];
    }
  }

  lemma {:induction false} ContentsAt(units: seq<Unit>, k: nat)
    requires k < |units|
    ensures Contents(units)[k] == units[k].content
  {
    if k < |units| - 1 {
      ContentsAt(units[..|units| - 1], k);
    }
  }

  function SumTokens(units: seq<Unit>): nat {
    if units == [] then 0 else SumTokens(units[..|units| - 1]) + units[|units| - 1].tokenCount
  }

  lemma SumTokensSnoc(units: seq<Unit>, u: Unit)
    ensures SumTokens(units + [u]) == SumTokens(units) + u.tokenCount
    ensures Contents(units + [u]) == Contents(units) + [u.content]
  {
    assert (units + [u])[..|units|] == units;
  }

  lemma {:induction false} SumTokensIsSumCount(units: seq<Unit>)
    requires forall i :: 0 <= i < |units| ==> units[i].tokenCount == TokenCount(units[i].content)
    ensures SumTokens(units) == SumCount(Contents(units))
  {
    if units != [] {
      SumTokensIsSumCount(units[..|units| - 1]);
      CountIsTokenCount(units[|units| - 1].content);
      assert Contents(units)[..|units| - 1] == Contents(units[..|units| - 1]);
    }
  }

  predicate SmallBlock(b: Block, maximum: nat) {
    b.content.Some? ==> SmallWords(b.content.value, maximum)
  }

  /** The text of the block, if it has an id, can be cut into parts of allowed size. */
  ghost predicate ManageableBlock(b: Block, maximum: nat) {
    b.blockId.Some? && b.content.Some? && b.content.value != "" ==> Manageable(b.content.value, maximum)
  }

  predicate UnitsOk(units: seq<Unit>, maximum: nat) {
    forall i :: 0 <= i < |units| ==> PartOk(units[i].content, maximum)
  }

  ghost function UnitsOfParts(b: Block, parts: seq<string>): seq<Unit>
    requires b.blockId.Some?
  {
    if parts == [] then []
    else
      var part := parts[|parts| - 1];
      UnitsOfParts(b, parts[..|parts| - 1])
      + if part == "" then [] else [Unit(b.blockId.value, b.pageNumber, b.blockType, part, TokenCount(part), b.related)]
  }

  /** The units of one block: its content, split when oversized. */
  ghost function UnitsOf(b: Block, maximum: nat): seq<Unit>
    requires maximum >= 1
  {
    if b.blockId == None || b.content == None || b.content.value == "" then []
    else UnitsOfParts(b, SplitParts(b.content.value, maximum))
  }

  lemma {:induction false} UnitsOfPartsFacts(b: Block, parts: seq<string>)
    requires b.blockId.Some?
    ensures forall i :: 0 <= i < |UnitsOfParts(b, parts)| ==>
              UnitOf(UnitsOfParts(b, parts)[i], b) && UnitsOfParts(b, parts)[i].content in parts
    ensures VisibleAll(Contents(UnitsOfParts(b, parts))) == VisibleAll(parts)
  {
    hide TokenCount, Visible, VisibleAll, Contents;
    if parts == [] {
      NoContents();
    } else {
      var front, part := parts[..|parts| - 1], parts[|parts| - 1];
      UnitsOfPartsFacts(b, front);
      assert parts == front + [part];
      VisibleSnoc(front, part);
      if part == "" {
        NothingVisible();
        assert VisibleAll(front) + [] == VisibleAll(front);
        assert UnitsOfParts(b, front) + [] == UnitsOfParts(b, front);
      } else {
        var unit := Unit(b.blockId.value, b.pageNumber, b.blockType, part, TokenCount(part), b.related);
        SumTokensSnoc(UnitsOfParts(b, front), unit);
        VisibleSnoc(Contents(UnitsOfParts(b, front)), part);
      }
    }
  }

  /** The empty parts that are left out have an allowed size. */
  lemma {:induction false} PartsSized(b: Block, parts: seq<string>, maximum: nat)
    requires b.blockId.Some?
    ensures AllSizeOk(Contents(UnitsOfParts(b, parts)), maximum) <==> AllSizeOk(parts, maximum)
  {
    hide TokenCount, AllSizeOk, Contents, SizeOk;
    if parts == [] {
      NoContents();
    } else {
      var front, part := parts[..|parts| - 1], parts[|parts| - 1];
      PartsSized(b, front, maximum);
      assert parts == front + [part];
      AllSizeOkConcat(front, [part], maximum);
      OneSizeOk(part, maximum);
      if part == "" {
        EmptySizeOk(maximum);
        assert UnitsOfParts(b, front) + [] == UnitsOfParts(b, front);
      } else {
        var unit := Unit(b.blockId.value, b.pageNumber, b.blockType, part, TokenCount(part), b.related);
        SumTokensSnoc(UnitsOfParts(b, front), unit);
        AllSizeOkConcat(Contents(UnitsOfParts(b, front)), [part], maximum);
      }
    }
  }

  lemma EmptySizeOk(maximum: nat)
    ensures SizeOk("", maximum)
  {
  }

  lemma UnitsOfFacts(b: Block, maximum: nat)
    requires maximum >= 1
    ensures var units := UnitsOf(b, maximum);
            && (forall i :: 0 <= i < |units| ==> UnitOf(units[i], b))
            && VisibleAll(Contents(units)) == (if b.blockId.Some? && b.content.Some? then Visible(b.content.value) else [])
            && UnitsOk(units, maximum)
            && (AllSizeOk(Contents(units), maximum) <==> ManageableBlock(b, maximum))
  {
    hide PartOk, TokenCount, Visible, VisibleAll, AllSizeOk, Manageable, Contents, UnitOf, SplitParts;
    NothingVisible();
    NoContents();
    if b.blockId.Some? && b.content.Some? && b.content.value != "" {
      var parts := SplitParts(b.content.value, maximum);
      UnitsOfPartsFacts(b, parts);
      SplitKeeps(b.content.value, maximum);
      SplitSizes(b.content.value, maximum);
      SplitSizesIff(b.content.value, maximum);
      PartsSized(b, parts, maximum);
    } else {
      NothingToSize(maximum);
    }
  }

  lemma NoContents()
    ensures Contents([]) == []
  {
  }

  method BlockUnits(b: Block, maximum: nat) returns (units: seq<Unit>)
    requires maximum >= 1
    ensures units == UnitsOf(b, maximum)
  {
    hide TokenCount, SplitParts, Manageable, AllSizeOk, PartOk, Visible, VisibleAll;
    units := [];
    if b.blockId == None || b.content == None || b.content.value == "" {
      return;
    }
    var parts := SplitOversizedText(b.content.value, maximum);
    for i := 0 to |parts|
      invariant units == UnitsOfParts(b, parts[..i])
    {
      assert parts[..i + 1][..i] == parts[..i];
      if parts[i] != "" {
        units := units + [Unit(b.blockId.value, b.pageNumber, b.blockType, parts[i], TokenCount(parts[i]), b.related)];
      }
    }
    assert parts[..|parts|] == parts;
  }

  // ----- chunks -----

  function Uniq(xs: seq<string>): (r: seq<string>)
    ensures forall x :: x in r <==> x in xs
    ensures forall i, k :: 0 <= i < k < |r| ==> r[i] != r[k]
  {
    if xs == [] then []
    else
      var init, last := Uniq(xs[..|xs| - 1]), xs[|xs| - 1];
      if last in init then init else init + [last]
  }

  function MinPage(units: seq<Unit>): int
    requires units != []
  {
    if |units| == 1 then units[0].pageNumber
    else
      var init, last := MinPage(units[..|units| - 1]), units[|units| - 1].pageNumber;
      if last < init then last else init
  }

  function MaxPage(units: seq<Unit>): int
    requires units != []
  {
    if |units| == 1 then units[0].pageNumber
    else
      var init, last := MaxPage(units[..|units| - 1]), units[|units| - 1].pageNumber;
      if last > init then last else init
  }

  function BlockIds(units: seq<Unit>): seq<string> {
    if units == [] then [] else BlockIds(units[..|units| - 1]) + [units[|units| - 1].blockId]
  }

  function Types(units: seq<Unit>): seq<string> {
    if units == [] then [] else Types(units[..|units| - 1]) + [units[|units| - 1].blockType]
  }

  function Related(units: seq<Unit>): seq<string> {
    if units == [] then [] else Related(units[..|units| - 1]) + units[|units| - 1].related
  }

  function MakeChunk(units: seq<Unit>, section: Option<string>, path: seq<string>, zone: Option<string>): Chunk
    requires units != []
  {
    var content := Join(Contents(units), SEPARATOR);
    Chunk(section, path, zone, MinPage(units), MaxPage(units), Uniq(BlockIds(units)), Uniq(Related(units)),
          Uniq(Types(units)), content, TokenCount(content), [], None)
  }

  /** The values of `xs`, each once, in order of first appearance. */
  ghost predicate FirstSeen(r: seq<string>, xs: seq<string>) {
    && (forall x :: x in r <==> x in xs)
    && (forall i, k :: 0 <= i < k < |r| ==> r[i] != r[k] && SeenFirst(xs, r[i], r[k]))
  }

  /** `x` appears before `y` does. */
  ghost predicate SeenFirst(xs: seq<string>, x: string, y: string) {
    exists p :: 0 <= p < |xs| && xs[p] == x && y !in xs[..p + 1]
  }

  lemma {:induction false} UniqFirstSeen(xs: seq<string>)
    ensures FirstSeen(Uniq(xs), xs)
  {
    if xs != [] {
      var front, last := xs[..|xs| - 1], xs[|xs| - 1];
      UniqFirstSeen(front);
      forall x, y | SeenFirst(front, x, y) ensures SeenFirst(xs, x, y) { LaterToo(xs, x, y); }
      if last !in Uniq(front) {
        forall x | x in front ensures SeenFirst(xs, x, last) {
          var p :| 0 <= p < |front| && front[p] == x;
          assert xs[p] == x && xs[..p + 1] == front[..p + 1];
        }
      }
    }
  }

  lemma LaterToo(xs: seq<string>, x: string, y: string)
    requires xs != [] && SeenFirst(xs[..|xs| - 1], x, y)
    ensures SeenFirst(xs, x, y)
  {
    var front := xs[..|xs| - 1];
    var p :| 0 <= p < |front| && front[p] == x && y !in front[..p + 1];
    assert xs[p] == x && xs[..p + 1] == front[..p + 1];
  }

  function IdsOf(origin: seq<Block>): seq<string> {
    seq(|origin|, i requires 0 <= i < |origin| => if origin[i].blockId.Some? then origin[i].blockId.value else "")
  }

  function TypesOf(origin: seq<Block>): seq<string> {
    seq(|origin|, i requires 0 <= i < |origin| => origin[i].blockType)
  }

  function RelatedOf(origin: seq<Block>): seq<seq<string>> {
    seq(|origin|, i requires 0 <= i < |origin| => origin[i].related)
  }

  /** The chunk says where its blocks are and what they are. */
  ghost predicate Described(chunk: Chunk, origin: seq<Block>) {
    && origin != [] && chunk.sectionPath == origin[0].sectionPath
    && (forall i :: 0 <= i < |origin| ==>
          && chunk.pageStart <= origin[i].pageNumber <= chunk.pageEnd
          && chunk.sectionId == origin[i].sectionId && chunk.zone == origin[i].zone)
    && (exists i :: 0 <= i < |origin| && origin[i].pageNumber == chunk.pageStart)
    && (exists i :: 0 <= i < |origin| && origin[i].pageNumber == chunk.pageEnd)
    && FirstSeen(chunk.blockIds, IdsOf(origin)) && FirstSeen(chunk.contentTypes, TypesOf(origin))
    && FirstSeen(chunk.related, Flatten(RelatedOf(origin)))
  }

  lemma {:induction false} PagesAre(units: seq<Unit>)
    requires units != []
    ensures forall i :: 0 <= i < |units| ==> MinPage(units) <= units[i].pageNumber <= MaxPage(units)
    ensures exists i :: 0 <= i < |units| && units[i].pageNumber == MinPage(units)
    ensures exists i :: 0 <= i < |units| && units[i].pageNumber == MaxPage(units)
  {
    var n := |units| - 1;
    if n > 0 {
      var front := units[..n];
      PagesAre(front);
      var a :| 0 <= a < n && front[a].pageNumber == MinPage(front);
      var b :| 0 <= b < n && front[b].pageNumber == MaxPage(front);
      assert units[a] == front[a] && units[b] == front[b];
      assert forall i :: 0 <= i < n ==> front[i] == units[i];
      assert units[n].pageNumber == MinPage(units) || units[a].pageNumber == MinPage(units);
      assert units[n].pageNumber == MaxPage(units) || units[b].pageNumber == MaxPage(units);
    }
  }

  lemma {:induction false} ListsAre(units: seq<Unit>, origin: seq<Block>, section: Option<string>, zone: Option<string>)
    requires SameSource(units, origin, section, zone)
    ensures BlockIds(units) == IdsOf(origin) && Types(units) == TypesOf(origin)
    ensures Related(units) == Flatten(RelatedOf(origin))
  {
    if units == [] {
      assert IdsOf(origin) == [] && TypesOf(origin) == [] && RelatedOf(origin) == [];
    } else {
      hide TokenCount, Flatten;
      var n := |units| - 1;
      ListsAre(units[..n], origin[..n], section, zone);
      assert UnitOf(units[n], origin[n]);
      assert IdsOf(origin) == IdsOf(origin[..n]) + [units[n].blockId];
      assert TypesOf(origin) == TypesOf(origin[..n]) + [units[n].blockType];
      assert RelatedOf(origin) == RelatedOf(origin[..n]) + [origin[n].related];
      FlattenLast(RelatedOf(origin[..n]), origin[n].related);
    }
  }

  lemma FlattenLast(parts: seq<seq<string>>, last: seq<string>)
    ensures Flatten(parts + [last]) == Flatten(parts) + last
  {
    assert (parts + [last])[..|parts|] == parts;
  }

  /** Every finished chunk describes its blocks. */
  lemma ChunkDescribes(chunk: Chunk, units: seq<Unit>, origin: seq<Block>, maximum: nat)
    requires ChunkOk(chunk, units, origin, maximum)
    ensures Described(chunk, origin)
  {
    hide TokenCount, UnitsOk, MinPage, MaxPage, Uniq, FirstSeen, BlockIds, Types, Related, Join, IdsOf, TypesOf, RelatedOf;
    PagesAre(units);
    ListsAre(units, origin, chunk.sectionId, chunk.zone);
    UniqFirstSeen(BlockIds(units));
    UniqFirstSeen(Types(units));
    UniqFirstSeen(Related(units));
    forall i | 0 <= i < |units| ensures units[i].pageNumber == origin[i].pageNumber { UnitPage(units[i], origin[i]); }
    var a :| 0 <= a < |units| && units[a].pageNumber == chunk.pageStart;
    var b :| 0 <= b < |units| && units[b].pageNumber == chunk.pageEnd;
    assert origin[a].pageNumber == chunk.pageStart && origin[b].pageNumber == chunk.pageEnd;
  }

  lemma UnitPage(u: Unit, b: Block)
    requires UnitOf(u, b)
    ensures u.pageNumber == b.pageNumber
  {
  }

  /** Units that fit together, or one unit alone. */
  predicate Fits(units: seq<Unit>, maximum: nat) {
    units != [] && (|units| == 1 || SumTokens(units) <= maximum)
  }

  lemma FitsSnoc(units: seq<Unit>, u: Unit, maximum: nat)
    requires units == [] || SumTokens(units) + u.tokenCount <= maximum
    ensures Fits(units + [u], maximum)
  {
    SumTokensSnoc(units, u);
  }

  /** The blocks the units were cut from, one for each unit, in one section and zone. */
  predicate SameSource(units: seq<Unit>, origin: seq<Block>, section: Option<string>, zone: Option<string>) {
    && |origin| == |units|
    && forall i :: 0 <= i < |units| ==>
         UnitOf(units[i], origin[i]) && origin[i].sectionId == section && origin[i].zone == zone
  }

  predicate ChunkOk(chunk: Chunk, units: seq<Unit>, origin: seq<Block>, maximum: nat) {
    && Fits(units, maximum) && UnitsOk(units, maximum)
    && SameSource(units, origin, chunk.sectionId, chunk.zone) && chunk.sectionPath == origin[0].sectionPath
    && chunk == MakeChunk(units, chunk.sectionId, chunk.sectionPath, chunk.zone)
    && chunk.content == Join(Contents(units), "\n\n") && chunk.tokenCount == TokenCount(chunk.content)
  }

  /** Within the bound for any text, and within the maximum without CJK characters. */
  predicate Sized(chunk: Chunk, maximum: nat) {
    && chunk.tokenCount <= 2 * maximum - 1
    && (NoCjk(chunk.content) ==> chunk.tokenCount <= maximum)
  }

  /** The size of a chunk from the sizes of its units: several units fit together
      whatever they are, so only a unit that is alone, with at most one word, can
      be too big; and the chunk is within its bounds exactly when its units are. */
  lemma ChunkBound(chunk: Chunk, units: seq<Unit>, origin: seq<Block>, maximum: nat)
    requires ChunkOk(chunk, units, origin, maximum) && maximum >= 1
    ensures Sized(chunk, maximum) || (|units| == 1 && |Words(chunk.content)| <= 1)
    ensures Sized(chunk, maximum) <==> AllSizeOk(Contents(units), maximum)
  {
    hide *;
    ChunkIs(chunk, units, origin, maximum);
    SizedIff(chunk, maximum);
    if |units| == 1 {
      JoinOneBy(units[0].content, SEPARATOR);
      OneSizeOk(units[0].content, maximum);
      PartOkIs(units[0].content, maximum);
    } else {
      JoinSizeOk(Contents(units), SEPARATOR, maximum);
      PartsOfSum(Contents(units), maximum);
    }
  }

  lemma ChunkIs(chunk: Chunk, units: seq<Unit>, origin: seq<Block>, maximum: nat)
    requires ChunkOk(chunk, units, origin, maximum)
    ensures units != [] && (|units| == 1 || SumCount(Contents(units)) <= maximum) && PartOk(units[0].content, maximum)
    ensures chunk.content == Join(Contents(units), SEPARATOR) && chunk.tokenCount == TokenCount(chunk.content)
    ensures |units| == 1 ==> Contents(units) == [units[0].content]
    ensures SEPARATOR != [] && Blank(SEPARATOR)
  {
    hide PartOk, TokenCount, Join, UnitOf, Contents, SumTokens, SumCount, Uniq, MinPage, MaxPage, BlockIds, Types, Related;
    ContentsAt(units, 0);
    forall i | 0 <= i < |units| ensures units[i].tokenCount == TokenCount(units[i].content) {
      UnitCount(units[i], origin[i]);
    }
    SumTokensIsSumCount(units);
  }

  lemma SizedIff(chunk: Chunk, maximum: nat)
    requires chunk.tokenCount == TokenCount(chunk.content) && maximum >= 1
    ensures Sized(chunk, maximum) <==> SizeOk(chunk.content, maximum)
  {
    hide TokenCount, NoCjk, SizeOk;
    SizeOkMeans(chunk.content, maximum);
  }

  lemma PartOkIs(part: string, maximum: nat)
    requires PartOk(part, maximum)
    ensures SizeOk(part, maximum) || |Words(part)| <= 1
  {
  }

  lemma JoinOneBy(part: string, sep: string)
    ensures Join([part], sep) == part
  {
  }

  lemma {:induction false} CountOfSum(parts: seq<string>, part: string)
    requires part in parts
    ensures Count(part) <= SumCount(parts)
  {
    hide Count;
    var n := |parts| - 1;
    if part != parts[n] {
      assert parts == parts[..n] + [parts[n]];
      CountOfSum(parts[..n], part);
    }
  }

  lemma PartsOfSum(parts: seq<string>, maximum: nat)
    requires SumCount(parts) <= maximum
    ensures AllSizeOk(parts, maximum)
  {
    hide Count, SumCount, SizeOk;
    forall part | part in parts ensures SizeOk(part, maximum) {
      CountOfSum(parts, part);
      SizeOkCount(part, maximum);
    }
  }

  lemma UnitCount(u: Unit, b: Block)
    requires UnitOf(u, b)
    ensures u.tokenCount == TokenCount(u.content)
  {
  }

  function UsableText(blocks: seq<Block>): string {
    if blocks == [] then []
    else
      var last := blocks[|blocks| - 1];
      UsableText(blocks[..|blocks| - 1]) + if Usable(last) then Visible(last.content.value) else []
  }

  lemma UsableTextSnoc(blocks: seq<Block>, b: Block)
    ensures UsableText(blocks + [b]) == UsableText(blocks) + if Usable(b) then Visible(b.content.value) else []
  {
    assert (blocks + [b])[..|blocks|] == blocks;
  }

  // ----- packing as a function of the blocks -----

  datatype Group = Group(units: seq<Unit>, section: Option<string>, path: seq<string>, zone: Option<string>)

  datatype Packing = Packing(closed: seq<Group>, open: Group)

  function Closed(p: Packing): Packing {
    if p.open.units == [] then p else Packing(p.closed + [p.open], p.open.(units := []))
  }

  function Restarted(p: Packing, b: Block): Packing {
    p.(open := Group([], b.sectionId, b.sectionPath, b.zone))
  }

  function Entered(p: Packing, b: Block): Packing {
    var q := if p.open.units != [] && (b.sectionId != p.open.section || b.zone != p.open.zone) then Closed(p) else p;
    if q.open.units == [] then Restarted(q, b) else q
  }

  function WithUnit(p: Packing, u: Unit, b: Block, maximum: nat): Packing {
    var q := if p.open.units != [] && SumTokens(p.open.units) + u.tokenCount > maximum then Restarted(Closed(p), b) else p;
    q.(open := q.open.(units := q.open.units + [u]))
  }

  function WithUnits(p: Packing, units: seq<Unit>, b: Block, maximum: nat): Packing {
    if units == [] then p
    else WithUnit(WithUnits(p, units[..|units| - 1], b, maximum), units[|units| - 1], b, maximum)
  }

  const START: Packing := Packing([], Group([], None, [], None))

  ghost function Packed(blocks: seq<Block>, maximum: nat): Packing
    requires maximum >= 1
  {
    if blocks == [] then START
    else
      var p, b := Packed(blocks[..|blocks| - 1], maximum), blocks[|blocks| - 1];
      if b.searchable then WithUnits(Entered(p, b), UnitsOf(b, maximum), b, maximum) else p
  }

  /** Why one group ends where the next begins. */
  predicate Forced(a: Group, b: Group, maximum: nat) {
    || a.section != b.section || a.zone != b.zone
    || (b.units != [] && SumTokens(a.units) + b.units[0].tokenCount > maximum)
  }

  ghost predicate AllForced(p: Packing, maximum: nat) {
    && (forall i, k :: 0 <= i < k < |p.closed| && k == i + 1 ==> Forced(p.closed[i], p.closed[k], maximum))
    && (p.closed != [] ==> Forced(p.closed[|p.closed| - 1], p.open, maximum))
  }

  lemma ForcedUnit(p: Packing, u: Unit, b: Block, maximum: nat)
    requires AllForced(p, maximum)
    ensures AllForced(WithUnit(p, u, b, maximum), maximum)
  {
  }

  lemma {:induction false} ForcedUnits(p: Packing, units: seq<Unit>, b: Block, maximum: nat)
    requires AllForced(p, maximum)
    ensures AllForced(WithUnits(p, units, b, maximum), maximum)
    ensures units != [] ==> WithUnits(p, units, b, maximum).open.units != []
  {
    if units != [] {
      ForcedUnits(p, units[..|units| - 1], b, maximum);
      ForcedUnit(WithUnits(p, units[..|units| - 1], b, maximum), units[|units| - 1], b, maximum);
    }
  }

  /** When every searchable block yields text, a chunk ends only where the section
      or zone changes or the next unit would not fit. */
  lemma {:induction false} BreaksAreForced(blocks: seq<Block>, maximum: nat)
    requires maximum >= 1
    requires forall b :: b in blocks && b.searchable ==> UnitsOf(b, maximum) != []
    ensures AllForced(Packed(blocks, maximum), maximum)
    ensures Packed(blocks, maximum) == START || Packed(blocks, maximum).open.units != []
  {
    hide UnitsOf, WithUnits, AllForced;
    if blocks == [] {
      NothingForced(maximum);
    } else {
      var front, b := blocks[..|blocks| - 1], blocks[|blocks| - 1];
      BreaksAreForced(front, maximum);
      if b.searchable {
        EnteredForced(Packed(front, maximum), b, maximum);
        ForcedUnits(Entered(Packed(front, maximum), b), UnitsOf(b, maximum), b, maximum);
      }
    }
  }

  lemma NothingForced(maximum: nat)
    ensures AllForced(START, maximum)
  {
  }

  lemma EnteredForced(p: Packing, b: Block, maximum: nat)
    requires AllForced(p, maximum) && (p == START || p.open.units != [])
    ensures AllForced(Entered(p, b), maximum)
  {
  }

  /** The state of the chunking loop and its `flush`. */
  class Packer {
    const maximum: nat
    var chunks: seq<Chunk>
    var chunkUnits: seq<seq<Unit>>
    var currentUnits: seq<Unit>
    var currentTokens: nat
    var section: Option<string>
    var path: seq<string>
    var zone: Option<string>
    ghost var origins: seq<seq<Block>>
    ghost var currentOrigin: seq<Block>

    ghost predicate Valid()
      reads this
    {
      && |chunks| == |chunkUnits| == |origins|
      && (forall k :: 0 <= k < |chunks| ==> ChunkOk(chunks[k], chunkUnits[k], origins[k], maximum))
      && currentTokens == SumTokens(currentUnits)
      && (currentUnits != [] ==> Fits(currentUnits, maximum)) && UnitsOk(currentUnits, maximum)
      && SameSource(currentUnits, currentOrigin, section, zone)
      && (currentUnits != [] ==> path == currentOrigin[0].sectionPath)
    }

    /** The blocks behind all units so far. */
    ghost function AllOrigins(): seq<Block>
      reads this
    {
      Flatten(origins) + currentOrigin
    }

    /** What has been packed so far. */
    ghost function State(): Packing
      requires Valid()
      reads this
    {
      Packing(GroupsOf(chunks, chunkUnits), Group(currentUnits, section, path, zone))
    }

    /** All units so far, in order. */
    ghost function AllUnits(): seq<Unit>
      reads this
    {
      Flatten(chunkUnits) + currentUnits
    }

    constructor (maximum: nat)
      ensures Valid() && this.maximum == maximum && AllUnits() == [] && AllOrigins() == []
      ensures State() == START
    {
      this.maximum := maximum;
      chunks, chunkUnits, currentUnits, currentTokens := [], [], [], 0;
      section, path, zone := None, [], None;
      origins, currentOrigin := [], [];
    }

    method Flush()
      requires Valid()
      modifies this
      ensures Valid() && State() == Closed(old(State())) && AllUnits() == old(AllUnits())
      ensures currentUnits == [] && AllOrigins() == old(AllOrigins())
    {
      hide MakeChunk, UnitsOk, UnitOf, Fits, SumTokens, SameSource, ChunkOk, GroupsOf, Flatten;
      if currentUnits == [] {
        return;
      }
      NothingOpen(maximum, section, zone);
      FlattenConcat(chunkUnits, [currentUnits]);
      FlattenOne(currentUnits);
      FlattenConcat(origins, [currentOrigin]);
      FlattenOne(currentOrigin);
      var chunk := MakeChunk(currentUnits, section, path, zone);
      SourcesAligned(currentUnits, currentOrigin, section, zone);
      MadeChunk(currentUnits, currentOrigin, section, path, zone, maximum);
      GroupsOfSnoc(chunks, chunkUnits, chunk, currentUnits);
      chunks := chunks + [chunk];
      chunkUnits := chunkUnits + [currentUnits];
      origins := origins + [currentOrigin];
      currentUnits, currentOrigin, currentTokens := [], [], 0;
    }

    method Append(unit: Unit, block: Block)
      requires Valid() && UnitOf(unit, block) && PartOk(unit.content, maximum)
      requires section == block.sectionId && zone == block.zone && (currentUnits == [] ==> path == block.sectionPath)
      modifies this
      ensures AllOrigins() == old(AllOrigins()) + [block] && currentUnits != []
      ensures Valid() && State() == WithUnit(old(State()), unit, block, maximum)
      ensures AllUnits() == old(AllUnits()) + [unit]
      ensures section == block.sectionId && zone == block.zone
    {
      hide MakeChunk, PartOk, UnitOf, Fits, SumTokens, Contents, Flatten, ChunkOk, GroupsOf;
      if currentUnits != [] && currentTokens + unit.tokenCount > maximum {
        Flush();
        section, path, zone := block.sectionId, block.sectionPath, block.zone;
      }
      SumTokensSnoc(currentUnits, unit);
      FitsSnoc(currentUnits, unit, maximum);
      currentUnits := currentUnits + [unit];
      currentOrigin := currentOrigin + [block];
      currentTokens := currentTokens + unit.tokenCount;
    }

    method AddUnits(units: seq<Unit>, block: Block)
      requires Valid() && section == block.sectionId && zone == block.zone && (currentUnits == [] ==> path == block.sectionPath)
      requires UnitsOk(units, maximum) && forall i :: 0 <= i < |units| ==> UnitOf(units[i], block)
      modifies this
      ensures forall b :: b in AllOrigins() ==> b in old(AllOrigins()) || b == block
      ensures Valid() && State() == WithUnits(old(State()), units, block, maximum)
      ensures AllUnits() == old(AllUnits()) + units
    {
      hide UnitOf, AllUnits, AllOrigins, Valid, State, WithUnit, PartOk;
      WithNoUnits(State(), block, maximum);
      assert units[..0] == [] && AllUnits() + [] == AllUnits();
      for i := 0 to |units|
        invariant Valid() && section == block.sectionId && zone == block.zone && (currentUnits == [] ==> path == block.sectionPath)
        invariant forall b :: b in AllOrigins() ==> b in old(AllOrigins()) || b == block
        invariant AllUnits() == old(AllUnits()) + units[..i]
        invariant State() == WithUnits(old(State()), units[..i], block, maximum)
      {
        assert units[..i + 1][..i] == units[..i];
        Append(units[i], block);
        assert units[..i + 1] == units[..i] + [units[i]];
      }
      assert units[..|units|] == units;
    }

    method AddBlock(block: Block)
      requires Valid() && maximum >= 1 && block.searchable
      modifies this
      ensures Valid() && State() == WithUnits(Entered(old(State()), block), UnitsOf(block, maximum), block, maximum)
      ensures VisibleAll(Contents(AllUnits())) == old(VisibleAll(Contents(AllUnits())))
                + if Usable(block) then Visible(block.content.value) else []
      ensures AllUnits() == old(AllUnits()) + UnitsOf(block, maximum)
      ensures forall b :: b in AllOrigins() ==> b in old(AllOrigins()) || b == block
    {
      hide MakeChunk, PartOk, UnitOf, Visible, VisibleAll, ManageableBlock, Fits, Contents, Flatten, ChunkOk, GroupsOf,
           UnitsOf, SumTokens, WithUnits;
      if currentUnits != [] && (block.sectionId != section || block.zone != zone) {
        Flush();
      }
      if currentUnits == [] {
        section, path, zone := block.sectionId, block.sectionPath, block.zone;
      }
      var units := BlockUnits(block, maximum);
      UnitsOfFacts(block, maximum);
      BlockText(AllUnits(), units, block);
      AddUnits(units, block);
    }
  }

  lemma FlattenOne<T>(part: seq<T>)
    ensures Flatten([part]) == part
  {
    assert [part][..0] == [];
  }

  lemma SourcesAligned(units: seq<Unit>, origin: seq<Block>, section: Option<string>, zone: Option<string>)
    requires SameSource(units, origin, section, zone)
    ensures |origin| == |units|
  {
  }

  lemma NothingOpen(maximum: nat, section: Option<string>, zone: Option<string>)
    ensures UnitsOk([], maximum)
    ensures SumTokens([]) == 0 && SameSource([], [], section, zone)
  {
  }

  lemma WithNoUnits(p: Packing, b: Block, maximum: nat)
    ensures WithUnits(p, [], b, maximum) == p
  {
  }

  lemma BlockText(before: seq<Unit>, units: seq<Unit>, block: Block)
    requires VisibleAll(Contents(units)) == if block.blockId.Some? && block.content.Some? then Visible(block.content.value) else []
    requires block.searchable
    ensures VisibleAll(Contents(before + units)) == VisibleAll(Contents(before)) +
              if Usable(block) then Visible(block.content.value) else []
  {
    hide Visible, VisibleAll, Contents;
    ContentsConcat(before, units);
    VisibleAllConcat(Contents(before), Contents(units));
    NothingVisible();
  }

  ghost function GroupsOf(chunks: seq<Chunk>, units: seq<seq<Unit>>): seq<Group>
    requires |units| == |chunks|
  {
    seq(|chunks|, k requires 0 <= k < |chunks| =>
      Group(units[k], chunks[k].sectionId, chunks[k].sectionPath, chunks[k].zone))
  }

  lemma GroupsOfSnoc(chunks: seq<Chunk>, units: seq<seq<Unit>>, chunk: Chunk, own: seq<Unit>)
    requires |units| == |chunks|
    ensures GroupsOf(chunks + [chunk], units + [own]) ==
            GroupsOf(chunks, units) + [Group(own, chunk.sectionId, chunk.sectionPath, chunk.zone)]
  {
  }

  lemma NoText()
    ensures UsableText([]) == [] && Contents([]) == []
  {
  }

  lemma MadeChunk(units: seq<Unit>, origin: seq<Block>, section: Option<string>, path: seq<string>, zone: Option<string>,
                  maximum: nat)
    requires units != [] && Fits(units, maximum) && UnitsOk(units, maximum)
    requires SameSource(units, origin, section, zone) && |origin| == |units| && path == origin[0].sectionPath
    ensures var c := MakeChunk(units, section, path, zone);
            ChunkOk(c, units, origin, maximum) && c.sectionId == section && c.sectionPath == path && c.zone == zone
  {
    hide Join, Contents, TokenCount, Fits, UnitsOk, SameSource, Uniq, MinPage, MaxPage, BlockIds, Types, Related;
  }

  /** The units of all searchable blocks, in order. */
  ghost function UnitsOfAll(blocks: seq<Block>, maximum: nat): seq<Unit>
    requires maximum >= 1
  {
    if blocks == [] then []
    else
      var last := blocks[|blocks| - 1];
      UnitsOfAll(blocks[..|blocks| - 1], maximum) + if last.searchable then UnitsOf(last, maximum) else []
  }

  lemma UnitsOfAllSnoc(blocks: seq<Block>, b: Block, maximum: nat)
    requires maximum >= 1
    ensures UnitsOfAll(blocks + [b], maximum) ==
            UnitsOfAll(blocks, maximum) + if b.searchable then UnitsOf(b, maximum) else []
    ensures UnitsOfAll([], maximum) == []
  {
    assert (blocks + [b])[..|blocks|] == blocks;
  }

  /** Every text that is chunked can be cut into parts of allowed size. */
  ghost predicate AllBlocksManageable(blocks: seq<Block>, maximum: nat) {
    forall b :: b in blocks && Usable(b) ==> Manageable(b.content.value, maximum)
  }

  lemma {:induction false} UnitsSizedIff(blocks: seq<Block>, maximum: nat)
    requires maximum >= 1
    ensures AllSizeOk(Contents(UnitsOfAll(blocks, maximum)), maximum) <==> AllBlocksManageable(blocks, maximum)
  {
    hide AllSizeOk, Contents, UnitsOf, Manageable, UnitOf, VisibleAll, Visible;
    if blocks == [] {
      NothingToSize(maximum);
      NoContents();
    } else {
      var front, last := blocks[..|blocks| - 1], blocks[|blocks| - 1];
      UnitsSizedIff(front, maximum);
      assert forall b :: b in blocks <==> b in front || b == last;
      if last.searchable {
        UnitsOfFacts(last, maximum);
        ContentsConcat(UnitsOfAll(front, maximum), UnitsOf(last, maximum));
        AllSizeOkConcat(Contents(UnitsOfAll(front, maximum)), Contents(UnitsOf(last, maximum)), maximum);
      } else {
        assert UnitsOfAll(front, maximum) + [] == UnitsOfAll(front, maximum);
      }
    }
  }

  lemma {:induction false} ChunksSizedIff(chunks: seq<Chunk>, units: seq<seq<Unit>>, origins: seq<seq<Block>>, maximum: nat)
    requires |chunks| == |units| == |origins| && maximum >= 1
    requires forall k :: 0 <= k < |chunks| ==> ChunkOk(chunks[k], units[k], origins[k], maximum)
    ensures (forall k :: 0 <= k < |chunks| ==> Sized(chunks[k], maximum)) <==>
            AllSizeOk(Contents(Flatten(units)), maximum)
  {
    hide AllSizeOk, Contents, ChunkOk, Sized;
    if chunks == [] {
      NothingToSize(maximum);
      NoContents();
    } else {
      var n := |chunks| - 1;
      ChunksSizedIff(chunks[..n], units[..n], origins[..n], maximum);
      ChunkBound(chunks[n], units[n], origins[n], maximum);
      ContentsConcat(Flatten(units[..n]), units[n]);
      AllSizeOkConcat(Contents(Flatten(units[..n])), Contents(units[n]), maximum);
      assert forall k :: 0 <= k < n ==> chunks[..n][k] == chunks[k];
    }
  }

  lemma SmallBlocks(blocks: seq<Block>, maximum: nat)
    requires maximum >= 1 && forall b :: b in blocks ==> SmallBlock(b, maximum)
    ensures AllBlocksManageable(blocks, maximum)
  {
    hide Manageable, SmallWords;
    forall b | b in blocks && Usable(b) ensures Manageable(b.content.value, maximum) {
      SmallIsManageable(b.content.value, maximum);
    }
  }

  /** For every maximum a block that does not become chunks of allowed size. */
  function TangledBlock(maximum: nat): Block
    requires maximum >= 1
  {
    Block(Some("b"), 1, "paragraph", Some(Tangle(2 * maximum - 1)), None, [], None, true, [])
  }

  lemma TangledBlockIsTooBig(maximum: nat)
    requires maximum >= 1
    ensures Usable(TangledBlock(maximum)) && !AllBlocksManageable([TangledBlock(maximum)], maximum)
  {
    hide Manageable, SplitParts, Words, Commas;
    TangleIsUnmanageable(maximum);
    assert TangledBlock(maximum) in [TangledBlock(maximum)];
  }

  /** Packing all blocks. Nothing visible is lost, duplicated or reordered, every
      chunk's units come from one section and one zone, the grouping is the specified
      one, a chunk exceeds its bounds only if it is one unit of at most one word,
      and none does exactly when every usable text is manageable. */
  method PackBlocks(blocks: seq<Block>, maximum: nat)
    returns (chunks: seq<Chunk>, chunkUnits: seq<seq<Unit>>, ghost origins: seq<seq<Block>>)
    requires maximum >= 1
    ensures |chunks| == |chunkUnits| == |origins|
    ensures forall k :: 0 <= k < |chunks| ==> ChunkOk(chunks[k], chunkUnits[k], origins[k], maximum)
    ensures forall k :: 0 <= k < |chunks| ==> Described(chunks[k], origins[k])
    ensures forall b :: b in Flatten(origins) ==> b in blocks && b.searchable
    ensures GroupsOf(chunks, chunkUnits) == Closed(Packed(blocks, maximum)).closed
    ensures VisibleAll(Contents(Flatten(chunkUnits))) == UsableText(blocks)
    ensures forall k :: 0 <= k < |chunks| ==>
              Sized(chunks[k], maximum) || (|chunkUnits[k]| == 1 && |Words(chunks[k].content)| <= 1)
    ensures (forall k :: 0 <= k < |chunks| ==> Sized(chunks[k], maximum)) <==> AllBlocksManageable(blocks, maximum)
    ensures (forall b :: b in blocks ==> SmallBlock(b, maximum)) ==> AllBlocksManageable(blocks, maximum)
  {
    hide MakeChunk, PartOk, UnitOf, Visible, VisibleAll, SmallBlock, ChunkOk, UnitsOk, UnitsOf, WithUnits, Entered,
         Contents, Flatten, UsableText, UnitsOfAll, AllBlocksManageable, Sized, AllSizeOk, Words, TokenCount;
    var packer := new Packer(maximum);
    NothingVisible();
    NoText();
    UnitsOfAllSnoc([], Block(None, 0, "", None, None, [], None, false, []), maximum);
    for i := 0 to |blocks|
      invariant packer.Valid() && packer.maximum == maximum && packer.State() == Packed(blocks[..i], maximum)
      invariant VisibleAll(Contents(packer.AllUnits())) == UsableText(blocks[..i])
      invariant packer.AllUnits() == UnitsOfAll(blocks[..i], maximum)
      invariant forall b :: b in packer.AllOrigins() ==> b in blocks[..i] && b.searchable
    {
      assert blocks[..i + 1] == blocks[..i] + [blocks[i]];
      assert blocks[..i + 1][..i] == blocks[..i];
      UsableTextSnoc(blocks[..i], blocks[i]);
      UnitsOfAllSnoc(blocks[..i], blocks[i], maximum);
      if blocks[i].searchable {
        packer.AddBlock(blocks[i]);
      }
    }
    assert blocks[..|blocks|] == blocks;
    packer.Flush();
    assert packer.AllUnits() == Flatten(packer.chunkUnits) + [] == Flatten(packer.chunkUnits);
    chunks, chunkUnits, origins := packer.chunks, packer.chunkUnits, packer.origins;
    assert packer.AllOrigins() == Flatten(packer.origins) + packer.currentOrigin;
    forall k | 0 <= k < |chunks| ensures Described(chunks[k], origins[k]) {
      ChunkDescribes(chunks[k], chunkUnits[k], origins[k], maximum);
    }
    forall k | 0 <= k < |chunks|
      ensures Sized(chunks[k], maximum) || (|chunkUnits[k]| == 1 && |Words(chunks[k].content)| <= 1)
    {
      ChunkBound(chunks[k], chunkUnits[k], origins[k], maximum);
    }
    ChunksSizedIff(chunks, chunkUnits, origins, maximum);
    UnitsSizedIff(blocks, maximum);
    if forall b :: b in blocks ==> SmallBlock(b, maximum) { SmallBlocks(blocks, maximum); }
  }
}
