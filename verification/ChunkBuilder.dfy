/** The whole chunker: packing, absorption, overlap contexts. */
module ChunkBuilder {
  import opened Wrappers
  import opened Text
  import opened Tokenization
  import opened Splitting
  import opened Chunker
  import opened Absorption
  import opened Overlap

  datatype Error = ValueError

  lemma ChunkUnitsCounted(chunk: Chunk, units: seq<Unit>, origin: seq<Block>, maximum: nat)
    requires ChunkOk(chunk, units, origin, maximum)
    ensures UnitsCounted(units)
  {
    hide TokenCount;
    forall i | 0 <= i < |units| ensures units[i].tokenCount == TokenCount(units[i].content) {
      UnitCount(units[i], origin[i]);
    }
  }

  // ----- text through the whole pipeline -----

  function Texts(contexts: seq<Context>): (r: seq<string>)
    ensures |r| == |contexts|
  {
    if contexts == [] then [] else Texts(contexts[..|contexts| - 1]) + [contexts[|contexts| - 1].content]
  }

  lemma ChunkText(chunk: Chunk, units: seq<Unit>, origin: seq<Block>, maximum: nat)
    requires ChunkOk(chunk, units, origin, maximum)
    ensures Visible(chunk.content) == VisibleAll(Contents(units))
  {
    hide Visible, VisibleAll, Join;
    VisibleJoin(Contents(units), SEPARATOR);
  }

  /** The chunks' texts are the units' texts. */
  lemma {:induction false} PackedText(chunks: seq<Chunk>, units: seq<seq<Unit>>, origins: seq<seq<Block>>, maximum: nat)
    requires |chunks| == |units| == |origins|
    requires forall k :: 0 <= k < |chunks| ==> ChunkOk(chunks[k], units[k], origins[k], maximum)
    ensures VisibleAll(Texts(Contexts(chunks))) == VisibleAll(Contents(Flatten(units)))
  {
    hide ChunkOk, Visible;
    if chunks != [] {
      var n := |chunks| - 1;
      PackedText(chunks[..n], units[..n], origins[..n], maximum);
      ChunkText(chunks[n], units[n], origins[n], maximum);
      ContentsConcat(Flatten(units[..n]), units[n]);
      VisibleAllConcat(Contents(Flatten(units[..n])), Contents(units[n]));
      assert Contexts(chunks)[..n] == Contexts(chunks[..n]);
      assert Texts(Contexts(chunks))[..n] == Texts(Contexts(chunks[..n]));
    }
  }

  lemma {:induction false} ExpandIgnoresOverlap(a: seq<Chunk>, b: seq<Chunk>)
    requires |a| == |b| && forall k :: 0 <= k < |a| ==> a[k].(overlap := None) == b[k].(overlap := None)
    ensures ExpandAll(a) == ExpandAll(b)
  {
    if a != [] {
      var n := |a| - 1;
      ExpandIgnoresOverlap(a[..n], b[..n]);
      assert a[n].(overlap := None) == b[n].(overlap := None);
      assert Expanded(a[n]) == Expanded(b[n]);
    }
  }

  /** How the result comes about: the blocks are packed as specified, small parents
      absorbed, and overlap contexts attached from the survivors' own units. */
  ghost predicate Built(blocks: seq<Block>, maximum: nat, minimum: nat, overlap: nat, r: seq<Chunk>,
                        packed: seq<Chunk>, units: seq<seq<Unit>>, survivorUnits: seq<seq<Unit>>, kept: seq<nat>)
    requires maximum >= 1
  {
    && |units| == |packed| && GroupsOf(packed, units) == Closed(Packed(blocks, maximum)).closed
    && (forall k :: 0 <= k < |packed| ==>
          units[k] != [] && packed[k] == MakeChunk(units[k], packed[k].sectionId, packed[k].sectionPath, packed[k].zone))
    && KeptFrom(Survivors(packed, minimum), survivorUnits, kept, packed, units)
    && |r| == |survivorUnits| == |Survivors(packed, minimum)|
    && forall k :: 0 <= k < |r| ==> AttachedAt(Survivors(packed, minimum), survivorUnits, overlap, r, k)
  }

  /** `build_chunks`. Sizes are bounded per chunk and per overlap context; and
      reading every chunk after the contexts it took over gives back the visible
      text of the usable blocks, in order, whenever absorption loses nothing. */
  method BuildChunks(blocks: seq<Block>, maximum: int, minimum: int, overlap: int)
    returns (res: Result<seq<Chunk>, Error>, ghost packed: seq<Chunk>, ghost packedUnits: seq<seq<Unit>>,
             ghost survivorUnits: seq<seq<Unit>>, ghost kept: seq<nat>, ghost origins: seq<seq<Block>>)
    ensures res.Ok? <==> maximum >= 50 && 0 <= minimum < maximum && 0 <= overlap < maximum
    ensures res.Ok? ==> Built(blocks, maximum, minimum, overlap, res.value, packed, packedUnits, survivorUnits, kept)
    ensures res.Ok? ==> forall k :: 0 <= k < |res.value| ==> OverlapOk(res.value, k, overlap)
    ensures res.Ok? ==> |kept| == |res.value| && forall k :: 0 <= k < |res.value| ==>
              && kept[k] < |origins| && Described(res.value[k], origins[kept[k]])
              && forall b :: b in origins[kept[k]] ==> b in blocks && b.searchable
    ensures res.Ok? ==> forall k :: 0 <= k < |res.value| ==> TakesOver(res.value[k], packed, minimum)
    ensures res.Ok? ==> forall k :: 0 <= k < |res.value| - 1 ==> !SmallAbove(res.value[k], res.value[k + 1], minimum)
    ensures res.Ok? ==> (ExpandAll(res.value) == Contexts(packed) <==> NothingLost(packed, minimum))
    ensures res.Ok? && NothingLost(packed, minimum) ==>
              VisibleAll(Texts(ExpandAll(res.value))) == UsableText(blocks)
    ensures res.Ok? ==> forall k :: 0 <= k < |res.value| ==>
              Sized(res.value[k], maximum) || |Words(res.value[k].content)| <= 1
    ensures res.Ok? ==>
              ((forall k :: 0 <= k < |res.value| ==> Sized(res.value[k], maximum)) <==> AllBlocksManageable(blocks, maximum))
    ensures res.Ok? && (forall b :: b in blocks ==> SmallBlock(b, maximum)) ==> AllBlocksManageable(blocks, maximum)
  {
    hide Survivors, TakesOver, SmallAbove, IsOneOf, OverlapOk, SmallBlock, KeptFrom, TokenCount, CanAbsorb, UsableText, VisibleAll,
         MakeChunk, SameSource, Described, NothingLost, AllBlocksManageable, Sized, ExpandAll, Texts, Contents, Flatten,
         Contexts, GroupsOf, Packed, OverlapOf, ContextFrom, Fits, Words;
    packed, packedUnits, survivorUnits, kept, origins := [], [], [], [], [];
    if maximum < 50 || minimum < 0 || minimum >= maximum || overlap < 0 || overlap >= maximum {
      res := Err(ValueError);
      return;
    }
    var chunks, units;
    chunks, units, origins := PackBlocks(blocks, maximum);
    packed, packedUnits := chunks, units;
    forall k | 0 <= k < |chunks|
      ensures chunks[k].parentContexts == [] && UnitsCounted(units[k]) && units[k] != []
    {
      ChunkUnitsCounted(chunks[k], units[k], origins[k], maximum);
      PackedFresh(chunks[k], units[k], origins[k], maximum);
    }
    var remaining, remainingUnits, absorbed, keptAt := AbsorbSmallParentChunks(chunks, units, minimum);
    survivorUnits, kept := remainingUnits, keptAt;
    KeptFacts(remaining, remainingUnits, kept, chunks, units);
    var attached, count := AttachOverlapContexts(remaining, remainingUnits, overlap);
    forall k | 0 <= k < |attached|
      ensures attached[k].(overlap := None) == remaining[k].(overlap := None)
      ensures OverlapOk(attached, k, overlap)
      ensures attached[k].content == chunks[kept[k]].content
      ensures Sized(attached[k], maximum) <==> Sized(chunks[kept[k]], maximum)
      ensures Described(attached[k], origins[kept[k]]) && forall b :: b in origins[kept[k]] ==> b in Flatten(origins)
    {
      assert AttachedAt(remaining, remainingUnits, overlap, attached, k);
      assert Core(remaining[k]) == Core(chunks[kept[k]]);
      CoreFields(attached[k], remaining[k], chunks[kept[k]]);
      AttachedCore(attached[k], remaining[k], chunks[kept[k]], maximum);
      DescribedCore(attached[k], remaining[k], chunks[kept[k]], origins[kept[k]]);
      InFlatten(origins, kept[k]);
      AttachedIsOk(remaining, remainingUnits, overlap, attached, k);
    }
    SurvivorsTakeOver(chunks, minimum);
    forall k | 0 <= k < |attached| ensures TakesOver(attached[k], chunks, minimum) {
      AttachedTakesOver(attached[k], remaining[k], chunks, minimum);
    }
    forall k | 0 <= k < |attached| - 1 ensures !SmallAbove(attached[k], attached[k + 1], minimum) {
      AttachedAbove(attached[k], remaining[k], attached[k + 1], remaining[k + 1], minimum);
    }
    ExpandIgnoresOverlap(attached, remaining);
    PackedText(chunks, units, origins, maximum);
    LosslessIff(chunks, minimum);
    forall k | 0 <= k < |chunks| && !Sized(chunks[k], maximum)
      ensures exists p :: 0 <= p < |attached| && !Sized(attached[p], maximum)
    {
      NotSizedIsBig(chunks[k], maximum);
      var p := BigSurvives(chunks, minimum, k);
      AttachedCore(attached[p], remaining[p], chunks[k], maximum);
    }
    res := Ok(attached);
  }

  lemma AttachedTakesOver(a: Chunk, b: Chunk, chunks: seq<Chunk>, minimum: nat)
    requires a.(overlap := None) == b.(overlap := None) && TakesOver(b, chunks, minimum)
    ensures TakesOver(a, chunks, minimum)
  {
    hide Records;
    forall x | x in a.parentContexts ensures TakenFrom(x, a, chunks, minimum) {
      assert b.(overlap := None).parentContexts == a.(overlap := None).parentContexts;
      var i :| 0 <= i < |chunks| && Records(x, chunks[i]) && SmallAbove(chunks[i], b, minimum);
      AttachedAbove(chunks[i], chunks[i], a, b, minimum);
    }
  }

  lemma AttachedAbove(a: Chunk, b: Chunk, c: Chunk, d: Chunk, minimum: nat)
    requires a.(overlap := None) == b.(overlap := None) && c.(overlap := None) == d.(overlap := None)
    ensures SmallAbove(a, c, minimum) <==> SmallAbove(b, d, minimum)
  {
    assert a == b.(overlap := a.overlap) && c == d.(overlap := c.overlap);
  }

  lemma CoreFields(a: Chunk, b: Chunk, c: Chunk)
    requires a.(overlap := None) == b.(overlap := None) && Core(b) == Core(c)
    ensures a.tokenCount == c.tokenCount && a.content == c.content
  {
  }

  lemma NotSizedIsBig(chunk: Chunk, maximum: nat)
    requires !Sized(chunk, maximum) && maximum >= 1
    ensures chunk.tokenCount >= maximum
  {
  }

  lemma AttachedCore(a: Chunk, b: Chunk, c: Chunk, maximum: nat)
    requires a.(overlap := None) == b.(overlap := None) && Core(b) == Core(c)
    ensures Sized(a, maximum) <==> Sized(c, maximum)
  {
    CoreFields(a, b, c);
  }

  lemma DescribedCore(a: Chunk, b: Chunk, c: Chunk, origin: seq<Block>)
    requires a.(overlap := None) == b.(overlap := None) && Core(b) == Core(c) && Described(c, origin)
    ensures Described(a, origin)
  {
    hide FirstSeen;
    assert a.(overlap := None, parentContexts := []) == b.(overlap := None, parentContexts := []);
    assert b.(overlap := None, parentContexts := []) == c.(overlap := None, parentContexts := []);
  }

  lemma {:induction false} InFlatten(parts: seq<seq<Block>>, k: nat)
    requires k < |parts|
    ensures forall b :: b in parts[k] ==> b in Flatten(parts)
  {
    if k < |parts| - 1 { InFlatten(parts[..|parts| - 1], k); }
  }

  lemma PackedFresh(chunk: Chunk, units: seq<Unit>, origin: seq<Block>, maximum: nat)
    requires ChunkOk(chunk, units, origin, maximum)
    ensures chunk.parentContexts == [] && units != []
  {
  }

  lemma KeptFacts(remaining: seq<Chunk>, remainingUnits: seq<seq<Unit>>, kept: seq<nat>,
                  chunks: seq<Chunk>, units: seq<seq<Unit>>)
    requires |units| == |chunks| && KeptFrom(remaining, remainingUnits, kept, chunks, units)
    ensures |remaining| == |remainingUnits| == |kept|
    ensures forall i :: 0 <= i < |kept| ==>
              && kept[i] < |chunks|
              && Core(remaining[i]) == Core(chunks[kept[i]]) && remainingUnits[i] == units[kept[i]]
  {
  }
}
