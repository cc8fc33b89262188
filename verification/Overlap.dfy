/** Overlap contexts: the tail of the preceding chunk, bounded in tokens. */
module Overlap {
  import opened Wrappers
  import opened Text
  import opened Tokenization
  import opened TokenCounting
  import opened Splitting
  import opened Oversized
  import opened Chunker

  // ----- building a text back to front -----

  lemma SumsSnoc(parts: seq<string>, part: string)
    ensures SumWeight(parts + [part]) == SumWeight(parts) + Weight(part)
    ensures SumCount(parts + [part]) == SumCount(parts) + Count(part)
    ensures VisibleAll(parts + [part]) == VisibleAll(parts) + Visible(part)
  {
    hide Weight, Count, Visible;
    assert (parts + [part])[..|parts|] == parts;
  }

  lemma SumsEmpty()
    ensures SumWeight([]) == 0 && SumCount([]) == 0 && VisibleAll([]) == []
  {
  }

  lemma {:induction false} SumsCons(part: string, parts: seq<string>)
    ensures SumWeight([part] + parts) == Weight(part) + SumWeight(parts)
    ensures SumCount([part] + parts) == Count(part) + SumCount(parts)
    ensures VisibleAll([part] + parts) == Visible(part) + VisibleAll(parts)
  {
    hide Weight, Count, Visible, SumWeight, SumCount, VisibleAll;
    SumsEmpty();
    if parts == [] {
      SumsSnoc([], part);
      assert [part] + parts == [] + [part];
    } else {
      var init, last := parts[..|parts| - 1], parts[|parts| - 1];
      SumsCons(part, init);
      SumsSnoc(init, last);
      SumsSnoc([part] + init, last);
      assert parts == init + [last];
      assert [part] + parts == [part] + init + [last];
    }
  }

  /** The budget test for a list of parts. */
  predicate PartsOk(parts: seq<string>, n: nat) {
    && SumWeight(parts) <= 2 * n
    && ((forall part :: part in parts ==> NoCjk(part)) ==> SumCount(parts) <= n)
  }

  lemma PartsOkJoin(parts: seq<string>, sep: string, n: nat)
    requires Blank(sep) && sep != [] && PartsOk(parts, n)
    ensures SizeOk(Join(parts, sep), n)
  {
    hide Weight, Count, Join, NoCjk, Blank;
    WeightJoin(parts, sep);
    if NoCjk(Join(parts, sep)) {
      NoCjkInJoin(parts, sep);
      NoCjkJoin(parts, sep);
    }
  }

  lemma PartsOkCons(part: string, parts: seq<string>, k: nat, n: nat)
    requires SizeOk(part, k) && PartsOk(parts, n)
    ensures PartsOk([part] + parts, k + n)
  {
    hide Weight, Count, NoCjk;
    SumsCons(part, parts);
    if forall x :: x in [part] + parts ==> NoCjk(x) {
      assert part in [part] + parts;
      assert forall x :: x in parts ==> x in [part] + parts;
    }
  }

  lemma SizeOkGrows(s: string, k: nat, n: nat)
    requires SizeOk(s, k) && k <= n
    ensures SizeOk(s, n)
  {
    hide Weight, Count, NoCjk;
  }

  lemma NoParts()
    ensures PartsOk([], 0)
  {
  }

  /** The visible text of `r` is one contiguous part of that of `value`. */
  ghost predicate Excerpt(r: string, value: string) {
    exists before, after :: Visible(value) == before + Visible(r) + after
  }

  lemma WholeIsExcerpt(value: string)
    ensures Excerpt(value, value)
  {
    hide Visible;
    assert Visible(value) == [] + Visible(value) + [];
  }

  // ----- the tail of one text -----

  /** From `cut` on is the longest run of trailing sentences that fits. */
  ghost predicate LastSentences(sentences: seq<string>, maximum: nat, cut: nat) {
    && cut <= |sentences| && SumCount(sentences[cut..]) <= maximum
    && (cut > 0 ==> SumCount(sentences[cut - 1..]) > maximum)
  }

  method TailSentences(sentences: seq<string>, maximum: nat) returns (selected: seq<string>, ghost cut: nat)
    ensures LastSentences(sentences, maximum, cut) && selected == sentences[cut..]
  {
    hide Count, SumCount;
    selected, cut := [], |sentences|;
    SumCountEmpty();
    var total, i := 0, |sentences|;
    while i > 0
      invariant 0 <= i <= |sentences| && cut == i
      invariant selected == sentences[i..] && SumCount(selected) == total <= maximum
    {
      var sentence := sentences[i - 1];
      CountIsTokenCount(sentence);
      var count := TokenCount(sentence);
      SumsCons(sentence, selected);
      assert [sentence] + selected == sentences[i - 1..];
      if selected != [] && total + count > maximum { break; }
      if count > maximum - total { break; }
      selected, total, cut, i := [sentence] + selected, total + count, i - 1, i - 1;
    }
  }

  /** `words[from..to]` is the longest run of words that fits, after the oversized
      words at the very end; a word counts at least one. */
  ghost predicate LastWords(words: seq<string>, maximum: nat, from: nat, to: nat) {
    && from <= to <= |words|
    && (forall k :: to <= k < |words| ==> Size(words[k], 1) > maximum)
    && (from == to ==> to == 0)
    && (from < to ==> Size(words[to - 1], 1) <= maximum && SumSize(words[from..to], 1) <= maximum)
    && (from > 0 ==> SumSize(words[from - 1..to], 1) > maximum)
  }

  lemma {:induction false} SumSizeCons(item: string, items: seq<string>, least: nat)
    ensures SumSize([item] + items, least) == Size(item, least) + SumSize(items, least)
  {
    hide Size;
    if items == [] {
      assert [item] + items == [item];
      SumSizeOne(item, least);
    } else {
      var front, last := items[..|items| - 1], items[|items| - 1];
      SumSizeCons(item, front, least);
      assert items == front + [last] && [item] + items == [item] + front + [last];
      SumSizeSnoc(front, last, least);
      SumSizeSnoc([item] + front, last, least);
    }
  }

  method TailWords(words: seq<string>, maximum: nat)
    returns (selected: seq<string>, ghost from: nat, ghost to: nat)
    ensures LastWords(words, maximum, from, to) && selected == words[from..to]
  {
    hide Count, SumSize, Size;
    selected, from, to := [], |words|, |words|;
    StartGroups(1, maximum);
    var total, i := 0, |words|;
    while i > 0
      invariant 0 <= i <= |words| && i == from <= to <= |words|
      invariant forall k :: to <= k < |words| ==> Size(words[k], 1) > maximum
      invariant selected == words[from..to] && SumSize(selected, 1) == total
      invariant from < to ==> Size(words[to - 1], 1) <= maximum && total <= maximum
    {
      var word := words[i - 1];
      SizeIs(word, 1);
      var count := if TokenCount(word) >= 1 then TokenCount(word) else 1;
      SumSizeCons(word, selected, 1);
      assert [word] + selected == words[i - 1..to];
      if selected != [] && total + count > maximum { break; }
      i, from := i - 1, i - 1;
      if count > maximum {
        assert from + 1 == to;
        to := from;
        continue;
      }
      selected, total := [word] + selected, total + count;
    }
  }

  lemma LineExcerpt(parts: seq<string>, from: nat, to: nat, value: string)
    requires from <= to <= |parts| && VisibleAll(parts) == Visible(value)
    ensures Excerpt(Join(parts[from..to], " "), value)
  {
    hide Visible, Join, VisibleAll;
    VisibleJoin(parts[from..to], " ");
    assert parts == parts[..from] + parts[from..to] + parts[to..];
    VisibleAllConcat(parts[..from] + parts[from..to], parts[to..]);
    VisibleAllConcat(parts[..from], parts[from..to]);
    assert Visible(value) == VisibleAll(parts[..from]) + Visible(Join(parts[from..to], " ")) + VisibleAll(parts[to..]);
  }

  lemma SuffixExcerpt(value: string, start: nat)
    requires start <= |value|
    ensures Excerpt(value[start..], value)
  {
    hide Visible;
    assert value == value[..start] + value[start..];
    VisibleConcat(value[..start], value[start..]);
    assert Visible(value) == Visible(value[..start]) + Visible(value[start..]) + [];
  }

  /** The longest suffix that fits, within the last 4 * maximum characters. */
  ghost predicate TailOfChars(value: string, maximum: nat, r: string) {
    exists start: nat ::
      && start <= |value| && |value| - start <= 4 * maximum && r == value[start..]
      && (start < |value| ==> TokenCount(value[start..]) <= maximum)
      && forall k: nat :: k < start && |value| - k <= 4 * maximum ==> TokenCount(value[k..]) > maximum
  }

  ghost predicate TailOfWords(value: string, maximum: nat, r: string) {
    exists from: nat, to: nat ::
      LastWords(Words(value), maximum, from, to)
      && if from < to then r == Join(Words(value)[from..to], " ") else TailOfChars(value, maximum, r)
  }

  ghost predicate TailOfSentences(value: string, maximum: nat, r: string) {
    exists cut: nat ::
      LastSentences(Sentences(value), maximum, cut)
      && if cut < |Sentences(value)| then r == Join(Sentences(value)[cut..], " ") else TailOfWords(value, maximum, r)
  }

  /** The tail of a text: the text if it fits, else its last sentences that fit,
      else its last words that fit, else its last characters that fit. */
  ghost predicate TailOf(value: string, maximum: nat, r: string) {
    if maximum == 0 then r == ""
    else if TokenCount(value) <= maximum then r == value
    else TailOfSentences(value, maximum, r)
  }

  method TailChars(value: string, maximum: nat) returns (r: string)
    ensures TailOfChars(value, maximum, r)
    ensures SizeOk(r, maximum) && Excerpt(r, value)
  {
    hide SizeOk, TokenCount, Excerpt;
    var start := if |value| - maximum * 4 > 0 then |value| - maximum * 4 else 0;
    while start < |value|
      invariant start <= |value| && |value| - start <= 4 * maximum
      invariant forall k: nat :: k < start && |value| - k <= 4 * maximum ==> TokenCount(value[k..]) > maximum
    {
      var candidate := value[start..];
      if TokenCount(candidate) <= maximum {
        CountIsTokenCount(candidate);
        SizeOkCount(candidate, maximum);
        SuffixExcerpt(value, start);
        return candidate;
      }
      start := start + 1;
    }
    assert value[start..] == "";
    CountEmpty();
    SizeOkCount("", maximum);
    SuffixExcerpt(value, start);
    return "";
  }

  lemma WordsTailSize(words: seq<string>, maximum: nat, from: nat, to: nat)
    requires LastWords(words, maximum, from, to) && from < to
    ensures SizeOk(Join(words[from..to], " "), maximum)
  {
    hide SizeOk, SumSize, Size, SumCount;
    SumSizeCovers(words[from..to], 1);
    LineSizeOk(words[from..to], maximum);
  }

  method TailTextByTokens(value: string, maximum: nat) returns (r: string)
    ensures TailOf(value, maximum, r)
    ensures SizeOk(r, maximum)
    ensures r != "" ==> Excerpt(r, value)
  {
    hide SizeOk, Sentences, Words, Visible, VisibleAll, Join, SumCount, SumSize, Size, Excerpt, TokenCount, TailOfChars;
    CountIsTokenCount(value);
    if maximum == 0 {
      NothingFits();
      return "";
    }
    if TokenCount(value) <= maximum {
      SizeOkCount(value, maximum);
      WholeIsExcerpt(value);
      return value;
    }
    var sentences, cut := TailSentences(Sentences(value), maximum);
    if sentences != [] {
      LineSizeOk(sentences, maximum);
      SentencesKeep(value);
      LineExcerpt(Sentences(value), cut, |Sentences(value)|, value);
      assert Sentences(value)[cut..|Sentences(value)|] == sentences;
      return Join(sentences, " ");
    }
    var words, from, to := TailWords(Words(value), maximum);
    if words != [] {
      WordsTailSize(Words(value), maximum, from, to);
      WordsAreSolid(value);
      LineExcerpt(Words(value), from, to, value);
      r := Join(words, " ");
    } else {
      r := TailChars(value, maximum);
    }
    assert TailOfWords(value, maximum, r);
    assert TailOfSentences(value, maximum, r);
  }

  lemma NothingFits()
    ensures SizeOk("", 0)
  {
  }

  // ----- the context of one chunk -----

  datatype OverlapText = OverlapText(blockIds: seq<string>, content: string, tokenCount: nat)

  predicate Eligible(u: Unit) {
    u.blockType == "paragraph" || u.blockType == "list"
  }

  function Prose(units: seq<Unit>): seq<Unit> {
    if units == [] then []
    else Prose(units[..|units| - 1]) + if Eligible(units[|units| - 1]) then [units[|units| - 1]] else []
  }

  lemma ProseAt(units: seq<Unit>, i: nat)
    requires i < |units|
    ensures Prose(units[..i + 1]) == Prose(units[..i]) + if Eligible(units[i]) then [units[i]] else []
  {
    assert units[..i + 1][..i] == units[..i];
  }

  lemma {:induction false} ProseIff(units: seq<Unit>)
    ensures forall u :: u in Prose(units) <==> u in units && (u.blockType == "paragraph" || u.blockType == "list")
  {
    if units != [] {
      var front, last := units[..|units| - 1], units[|units| - 1];
      ProseIff(front);
      assert units == front + [last];
    }
  }

  lemma {:induction false} ProseLast(units: seq<Unit>, i: nat)
    requires i < |units| && (units[i].blockType == "paragraph" || units[i].blockType == "list")
    requires forall k :: i < k < |units| ==> units[k].blockType != "paragraph" && units[k].blockType != "list"
    ensures Prose(units) != [] && Prose(units)[|Prose(units)| - 1] == units[i]
  {
    if i < |units| - 1 { ProseLast(units[..|units| - 1], i); }
  }

  lemma {:induction false} UnitsCons(unit: Unit, units: seq<Unit>)
    ensures SumTokens([unit] + units) == unit.tokenCount + SumTokens(units)
    ensures Contents([unit] + units) == [unit.content] + Contents(units)
    ensures BlockIds([unit] + units) == [unit.blockId] + BlockIds(units)
  {
    if units == [] {
      assert [unit] + units == [unit];
    } else {
      var front, last := units[..|units| - 1], units[|units| - 1];
      UnitsCons(unit, front);
      assert ([unit] + units)[..|units|] == [unit] + front;
    }
  }

  /** `tail` is the part taken whole from the end of `front + tail`: it fits, it
      stops once the budget is used up, and the unit before it does not fit, of
      which `excerpt` is the tail that does. */
  ghost predicate Taken(front: seq<Unit>, tail: seq<Unit>, overlap: nat, excerpt: string) {
    var used := SumTokens(tail);
    && used <= overlap
    && (tail != [] ==> SumTokens(tail[1..]) < overlap)
    && if front == [] || used == overlap then excerpt == ""
       else
         var cut := front[|front| - 1];
         cut.tokenCount > overlap - used && TailOf(cut.content, overlap - used, excerpt)
  }

  function Assembled(front: seq<Unit>, tail: seq<Unit>, excerpt: string): Option<OverlapText> {
    var cut := excerpt != "" && front != [];
    var contents := (if cut then [excerpt] else []) + Contents(tail);
    var ids := (if cut then [front[|front| - 1].blockId] else []) + BlockIds(tail);
    if contents == [] then None
    else Some(OverlapText(Uniq(ids), Join(contents, SEPARATOR), TokenCount(Join(contents, SEPARATOR))))
  }

  ghost predicate Selected(units: seq<Unit>, overlap: nat, front: seq<Unit>, tail: seq<Unit>, excerpt: string,
                           c: Option<OverlapText>) {
    Prose(units) == front + tail && Taken(front, tail, overlap, excerpt) && c == Assembled(front, tail, excerpt)
  }

  /** The context is assembled from the prose units: the last ones that fit, and
      the tail of the one before them. */
  ghost predicate OverlapOf(units: seq<Unit>, overlap: nat, c: Option<OverlapText>) {
    if overlap == 0 then c == None
    else exists front, tail, excerpt :: Selected(units, overlap, front, tail, excerpt, c)
  }

  /** A context repeats paragraphs and lists only; and there is none only if the
      last of them is too big to be taken whole. */
  lemma OverlapIsProse(units: seq<Unit>, overlap: nat, c: Option<OverlapText>)
    requires OverlapOf(units, overlap, c)
    ensures c.Some? ==> forall id :: id in c.value.blockIds ==>
              exists u :: u in units && u.blockId == id && (u.blockType == "paragraph" || u.blockType == "list")
    ensures c == None && overlap > 0 ==> forall i ::
              && 0 <= i < |units| && (units[i].blockType == "paragraph" || units[i].blockType == "list")
              && (forall k :: i < k < |units| ==> units[k].blockType != "paragraph" && units[k].blockType != "list")
              ==> units[i].tokenCount > overlap
  {
    hide TokenCount, Join, TailOf, Prose, SumTokens;
    if overlap > 0 {
      var front: seq<Unit>, tail: seq<Unit>, excerpt: string :| Selected(units, overlap, front, tail, excerpt, c);
      ProseIff(units);
      if c.Some? {
        forall id | id in c.value.blockIds ensures exists u :: u in Prose(units) && u.blockId == id {
          IdsOfUnits(tail);
          assert forall u :: u in tail || u in front ==> u in Prose(units);
          if id !in BlockIds(tail) { assert front[|front| - 1] in Prose(units); }
        }
      } else {
        assert tail == [] && excerpt == "";
        NoUnits();
        assert Prose(units) == front;
        forall i | 0 <= i < |units| && (units[i].blockType == "paragraph" || units[i].blockType == "list")
              && (forall k :: i < k < |units| ==> units[k].blockType != "paragraph" && units[k].blockType != "list")
          ensures units[i].tokenCount > overlap
        {
          ProseLast(units, i);
        }
      }
    }
  }

  lemma {:induction false} IdsOfUnits(units: seq<Unit>)
    ensures forall id :: id in BlockIds(units) ==> exists u :: u in units && u.blockId == id
  {
    if units != [] {
      var front, last := units[..|units| - 1], units[|units| - 1];
      IdsOfUnits(front);
      assert units == front + [last];
    }
  }

  /** A context is within the bound whatever was selected. */
  lemma OverlapSize(units: seq<Unit>, overlap: nat, c: Option<OverlapText>)
    requires UnitsCounted(units) && OverlapOf(units, overlap, c) && c.Some?
    ensures overlap >= 1 && SizeOk(c.value.content, overlap) && c.value.tokenCount == TokenCount(c.value.content)
  {
    hide SizeOk, TokenCount, Join, PartsOk, Prose, TailOf, Uniq, BlockIds, Contents, SumTokens;
    var front: seq<Unit>, tail: seq<Unit>, excerpt: string :| Selected(units, overlap, front, tail, excerpt, c);
    var used := SumTokens(tail);
    ProseCounted(units);
    assert forall i :: 0 <= i < |tail| ==> tail[i] == (front + tail)[|front| + i];
    TailPartsOk(tail);
    if excerpt != "" {
      assert front != [] && used < overlap;
      TailSize(front[|front| - 1].content, overlap - used, excerpt);
      PartsOkCons(excerpt, Contents(tail), overlap - used, used);
      PartsOkJoin([excerpt] + Contents(tail), SEPARATOR, overlap);
    } else {
      assert [] + Contents(tail) == Contents(tail);
      PartsOkJoin(Contents(tail), SEPARATOR, used);
      SizeOkGrows(c.value.content, used, overlap);
    }
  }

  lemma {:induction false} ProseCounted(units: seq<Unit>)
    requires UnitsCounted(units)
    ensures UnitsCounted(Prose(units))
  {
    hide TokenCount;
    if units != [] { ProseCounted(units[..|units| - 1]); }
  }

  lemma {:induction false} TailPartsOk(tail: seq<Unit>)
    requires UnitsCounted(tail)
    ensures PartsOk(Contents(tail), SumTokens(tail))
  {
    hide TokenCount, PartsOk, SizeOk;
    if tail == [] {
      NoParts();
      assert Contents(tail) == [];
    } else {
      assert tail == [tail[0]] + tail[1..];
      TailPartsOk(tail[1..]);
      UnitsCons(tail[0], tail[1..]);
      CountIsTokenCount(tail[0].content);
      SizeOkCount(tail[0].content, tail[0].tokenCount);
      PartsOkCons(tail[0].content, Contents(tail[1..]), tail[0].tokenCount, SumTokens(tail[1..]));
    }
  }

  lemma TailSize(value: string, maximum: nat, r: string)
    requires TailOf(value, maximum, r)
    ensures SizeOk(r, maximum)
  {
    hide SizeOk, Sentences, Words, Join, SumCount, SumSize, Size, TokenCount;
    CountIsTokenCount(value);
    if maximum == 0 {
      NothingFits();
    } else if TokenCount(value) <= maximum {
      SizeOkCount(value, maximum);
    } else {
      var cut: nat :| LastSentences(Sentences(value), maximum, cut)
        && if cut < |Sentences(value)| then r == Join(Sentences(value)[cut..], " ") else TailOfWords(value, maximum, r);
      if cut < |Sentences(value)| {
        LineSizeOk(Sentences(value)[cut..], maximum);
      } else {
        var from: nat, to: nat :| LastWords(Words(value), maximum, from, to)
          && if from < to then r == Join(Words(value)[from..to], " ") else TailOfChars(value, maximum, r);
        if from < to { WordsTailSize(Words(value), maximum, from, to); } else { CharsSize(value, maximum, r); }
      }
    }
  }

  lemma CharsSize(value: string, maximum: nat, r: string)
    requires TailOfChars(value, maximum, r)
    ensures SizeOk(r, maximum)
  {
    hide SizeOk, TokenCount;
    CountIsTokenCount(r);
    CountEmpty();
    if r == "" { SizeOkCount(r, maximum); } else { SizeOkCount(r, maximum); }
  }

  method OverlapContext(units: seq<Unit>, overlap: nat) returns (r: Option<OverlapText>)
    ensures OverlapOf(units, overlap, r)
  {
    hide SizeOk, TokenCount, Join, TailOf, Uniq, Prose, Contents, BlockIds, SumTokens, Excerpt;
    if overlap == 0 {
      return None;
    }
    var contents: seq<string>, ids: seq<string>, remaining := [], [], overlap;
    ghost var tail: seq<Unit> := [];
    NoUnits();
    var i := |units|;
    assert units[..i] == units && Prose(units[..i]) + tail == Prose(units);
    while i > 0
      invariant 0 <= i <= |units| && 1 <= remaining <= overlap
      invariant Prose(units) == Prose(units[..i]) + tail
      invariant contents == Contents(tail) && ids == BlockIds(tail)
      invariant SumTokens(tail) == overlap - remaining && (tail != [] ==> SumTokens(tail[1..]) < overlap)
    {
      var unit := units[i - 1];
      ProseAt(units, i - 1);
      if !Eligible(unit) {
        i := i - 1;
        continue;
      }
      ghost var front := Prose(units[..i]);
      if unit.tokenCount > remaining {
        var excerpt := TailTextByTokens(unit.content, remaining);
        assert front[|front| - 1] == unit;
        if excerpt != "" {
          contents, ids := [excerpt] + contents, [unit.blockId] + ids;
        } else {
          assert [] + contents == contents && [] + ids == ids;
        }
        r := Finish(contents, ids);
        assert Selected(units, overlap, front, tail, excerpt, r);
        return;
      }
      UnitsCons(unit, tail);
      assert ([unit] + tail)[1..] == tail;
      contents, ids := [unit.content] + contents, [unit.blockId] + ids;
      tail, i, remaining := [unit] + tail, i - 1, remaining - unit.tokenCount;
      assert Prose(units) == Prose(units[..i]) + tail;
      if remaining == 0 { break; }
    }
    assert [] + contents == contents && [] + ids == ids;
    r := Finish(contents, ids);
    if i == 0 { assert units[..i] == []; }
    assert Selected(units, overlap, Prose(units[..i]), tail, "", r);
  }

  lemma NoUnits()
    ensures Contents([]) == [] && BlockIds([]) == [] && SumTokens([]) == 0 && Prose([]) == []
  {
  }

  function Finish(contents: seq<string>, ids: seq<string>): Option<OverlapText> {
    if contents == [] then None
    else Some(OverlapText(Uniq(ids), Join(contents, SEPARATOR), TokenCount(Join(contents, SEPARATOR))))
  }

  // ----- attaching contexts -----

  function Lifted(previous: Chunk, c: Option<OverlapText>): Option<Context> {
    match c
    case None => None
    case Some(t) => Some(Context(previous.sectionId, previous.sectionPath, None, t.blockIds, t.content, t.tokenCount))
  }

  ghost predicate ContextFrom(units: seq<Unit>, overlap: nat, previous: Chunk, o: Option<Context>) {
    exists c :: OverlapOf(units, overlap, c) && o == Lifted(previous, c)
  }

  /** Where a chunk continues, its overlap is the context of the units before it;
      elsewhere it has none. Nothing else of it changes. */
  ghost predicate AttachedAt(chunks: seq<Chunk>, chunkUnits: seq<seq<Unit>>, overlap: nat, r: seq<Chunk>, k: nat)
    requires k < |chunks| == |chunkUnits| && k < |r|
  {
    && r[k].(overlap := None) == chunks[k].(overlap := None)
    && if k > 0 && chunks[k].sectionId.Some?
          && chunks[k].sectionId == chunks[k - 1].sectionId && chunks[k].zone == chunks[k - 1].zone
       then ContextFrom(chunkUnits[k - 1], overlap, chunks[k - 1], r[k].overlap)
       else r[k].overlap == None
  }

  /** An overlap context comes from the chunk before, of the same section and zone,
      and is within the bound. */
  predicate OverlapOk(chunks: seq<Chunk>, k: nat, overlap: nat)
    requires k < |chunks|
  {
    chunks[k].overlap.Some? ==>
      && overlap >= 1 && k > 0
      && chunks[k].overlap.value.sectionId == chunks[k].sectionId == chunks[k - 1].sectionId
      && chunks[k].overlap.value.sectionPath == chunks[k - 1].sectionPath
      && chunks[k].sectionId.Some? && chunks[k].zone == chunks[k - 1].zone
      && chunks[k].overlap.value.tokenCount <= 2 * overlap - 1
      && (NoCjk(chunks[k].overlap.value.content) ==> chunks[k].overlap.value.tokenCount <= overlap)
  }

  predicate UnitsCounted(units: seq<Unit>) {
    forall i :: 0 <= i < |units| ==> units[i].tokenCount == TokenCount(units[i].content)
  }

  function Overlaps(chunks: seq<Chunk>): nat {
    if chunks == [] then 0 else Overlaps(chunks[..|chunks| - 1]) + if chunks[|chunks| - 1].overlap.Some? then 1 else 0
  }

  method AttachOverlapContexts(chunks: seq<Chunk>, chunkUnits: seq<seq<Unit>>, overlap: nat)
    returns (r: seq<Chunk>, count: nat)
    requires |chunkUnits| == |chunks|
    ensures |r| == |chunks| && count == Overlaps(r)
    ensures forall k :: 0 <= k < |r| ==> AttachedAt(chunks, chunkUnits, overlap, r, k)
  {
    hide OverlapOf;
    r, count := [], 0;
    for index := 0 to |chunks|
      invariant |r| == index && count == Overlaps(r)
      invariant forall k :: 0 <= k < index ==> AttachedAt(chunks, chunkUnits, overlap, r, k)
    {
      var chunk := chunks[index].(overlap := None);
      if index > 0 && chunks[index].sectionId.Some?
         && chunks[index].sectionId == chunks[index - 1].sectionId && chunks[index].zone == chunks[index - 1].zone {
        var context := OverlapContext(chunkUnits[index - 1], overlap);
        if context.Some? {
          chunk := chunk.(overlap := Lifted(chunks[index - 1], context));
          count := count + 1;
        }
        assert ContextFrom(chunkUnits[index - 1], overlap, chunks[index - 1], chunk.overlap);
      }
      assert (r + [chunk])[..index] == r;
      ghost var before := r;
      r := r + [chunk];
      forall k | 0 <= k < index ensures AttachedAt(chunks, chunkUnits, overlap, r, k) {
        assert AttachedAt(chunks, chunkUnits, overlap, before, k);
      }
    }
  }

  /** Attached contexts are within their bound. */
  lemma AttachedIsOk(chunks: seq<Chunk>, chunkUnits: seq<seq<Unit>>, overlap: nat, r: seq<Chunk>, k: nat)
    requires k < |chunks| == |chunkUnits| == |r|
    requires k > 0 ==> UnitsCounted(chunkUnits[k - 1])
    requires forall i :: 0 <= i < |r| ==> AttachedAt(chunks, chunkUnits, overlap, r, i)
    ensures OverlapOk(r, k, overlap)
  {
    hide OverlapOf, TokenCount, SizeOk;
    assert AttachedAt(chunks, chunkUnits, overlap, r, k);
    if r[k].overlap.Some? {
      assert AttachedAt(chunks, chunkUnits, overlap, r, k - 1);
      var c :| OverlapOf(chunkUnits[k - 1], overlap, c) && r[k].overlap == Lifted(chunks[k - 1], c);
      OverlapSize(chunkUnits[k - 1], overlap, c);
      SizeOkMeans(c.value.content, overlap);
    }
  }
}
