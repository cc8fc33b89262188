/** Absorbing small parent-section chunks into the following child chunk. */
module Absorption {
  import opened Wrappers
  import opened Chunker
  import Text

  predicate IsParentPath(parent: seq<string>, child: seq<string>) {
    parent != [] && parent < child
  }

  predicate CanAbsorb(current: Chunk, following: Chunk, minimum: nat) {
    && minimum > 0
    && (forall t :: t in current.contentTypes ==> t == "paragraph" || t == "list")
    && current.tokenCount < minimum
    && current.sectionId.Some?
    && current.zone == following.zone
    && IsParentPath(current.sectionPath, following.sectionPath)
  }

  /** The record kept of an absorbed chunk; it does not nest older contexts. */
  function ContextOf(c: Chunk): Context {
    Context(c.sectionId, c.sectionPath, c.zone, c.blockIds, c.content, c.tokenCount)
  }

  /** `following["parent_contexts"]` is overwritten, not extended. */
  function Taking(following: Chunk, current: Chunk): Chunk {
    following.(parentContexts := current.parentContexts + [ContextOf(current)])
  }

  /** The chunk apart from what it absorbed. */
  function Core(c: Chunk): Chunk {
    c.(parentContexts := [])
  }

  // ----- the declarative form: a stack of survivors -----

  /** A new chunk takes over absorbable survivors from the top of the stack. */
  function Push(stack: seq<Chunk>, c: Chunk, minimum: nat): (r: seq<Chunk>)
    ensures r != [] && |r| <= |stack| + 1 && Core(r[|r| - 1]) == Core(c)
    ensures r[..|r| - 1] <= stack
    decreases |stack|
  {
    if stack != [] && CanAbsorb(stack[|stack| - 1], c, minimum)
    then Push(stack[..|stack| - 1], Taking(c, stack[|stack| - 1]), minimum)
    else stack + [c]
  }

  function PushAll(stack: seq<Chunk>, rest: seq<Chunk>, minimum: nat): seq<Chunk>
    decreases |rest|
  {
    if rest == [] then stack else PushAll(Push(stack, rest[0], minimum), rest[1..], minimum)
  }

  /** What remains of `chunks`. */
  function Survivors(chunks: seq<Chunk>, minimum: nat): seq<Chunk> {
    if chunks == [] then []
    else Push(Survivors(chunks[..|chunks| - 1], minimum), chunks[|chunks| - 1], minimum)
  }

  lemma {:induction false} PushAllIsSurvivors(done: seq<Chunk>, rest: seq<Chunk>, minimum: nat)
    ensures PushAll(Survivors(done, minimum), rest, minimum) == Survivors(done + rest, minimum)
    decreases |rest|
  {
    hide Push;
    if rest == [] {
      assert done + rest == done;
    } else {
      assert (done + [rest[0]])[..|done|] == done;
      assert Survivors(done + [rest[0]], minimum) == Push(Survivors(done, minimum), rest[0], minimum);
      PushAllIsSurvivors(done + [rest[0]], rest[1..], minimum);
      assert done + [rest[0]] + rest[1..] == done + rest;
    }
  }

  predicate NoneAbsorbable(chunks: seq<Chunk>, minimum: nat) {
    forall i :: 0 <= i < |chunks| - 1 ==> !CanAbsorb(chunks[i], chunks[i + 1], minimum)
  }

  predicate Increasing(kept: seq<nat>, n: nat) {
    && (forall i :: 0 <= i < |kept| ==> kept[i] < n)
    && (forall i, k :: 0 <= i < k < |kept| ==> kept[i] < kept[k])
  }

  /** `kept` names the input positions that survive, units alongside. */
  predicate KeptFrom(remaining: seq<Chunk>, remainingUnits: seq<seq<Unit>>, kept: seq<nat>,
                     chunks: seq<Chunk>, units: seq<seq<Unit>>)
    requires |units| == |chunks|
  {
    && |remaining| == |remainingUnits| == |kept|
    && Increasing(kept, |chunks|)
    && forall i :: 0 <= i < |kept| ==>
         Core(remaining[i]) == Core(chunks[kept[i]]) && remainingUnits[i] == units[kept[i]]
  }

  /** The loop that steps its index back after an absorption. It terminates, it
      ends with no adjacent pair absorbable, and it computes the survivors. */
  method AbsorbSmallParentChunks(chunks: seq<Chunk>, units: seq<seq<Unit>>, minimum: nat)
    returns (remaining: seq<Chunk>, remainingUnits: seq<seq<Unit>>, absorbed: nat, ghost kept: seq<nat>)
    requires |units| == |chunks|
    ensures remaining == Survivors(chunks, minimum)
    ensures NoneAbsorbable(remaining, minimum)
    ensures absorbed + |remaining| == |chunks|
    ensures KeptFrom(remaining, remainingUnits, kept, chunks, units)
  {
    hide CanAbsorb, KeptFrom, Survivors, PushAll, Taking;
    remaining, remainingUnits, absorbed := chunks, units, 0;
    kept := AllKept(chunks, units);
    var index := 0;
    if chunks != [] {
      StartWithFirst(chunks, minimum);
    }
    while index + 1 < |remaining|
      invariant absorbed + |remaining| == |chunks|
      invariant chunks != [] ==> index < |remaining|
      invariant index == 0 || index < |remaining|
      invariant KeptFrom(remaining, remainingUnits, kept, chunks, units)
      invariant forall i :: 0 <= i < index ==> !CanAbsorb(remaining[i], remaining[i + 1], minimum)
      invariant chunks != [] ==>
                  PushAll(remaining[..index + 1], remaining[index + 1..], minimum) == Survivors(chunks, minimum)
      decreases |remaining|, |remaining| - index
    {
      var current, following := remaining[index], remaining[index + 1];
      if !CanAbsorb(current, following, minimum) {
        NotAbsorbed(remaining, index, minimum);
        index := index + 1;
        continue;
      }
      AbsorbedAt(remaining, index, minimum);
      KeptTaking(remaining, remainingUnits, kept, chunks, units, index);
      PairsBefore(remaining, index, minimum);
      remaining := remaining[..index] + [Taking(following, current)] + remaining[index + 2..];
      remainingUnits := remainingUnits[..index] + remainingUnits[index + 1..];
      kept := kept[..index] + kept[index + 1..];
      absorbed := absorbed + 1;
      if index > 0 {
        index := index - 1;
      }
    }
    KeptLengths(remaining, remainingUnits, kept, chunks, units);
    if chunks != [] {
      assert remaining[..index + 1] == remaining && remaining[index + 1..] == [];
      NothingToPush(remaining, minimum);
    } else {
      NothingSurvives(minimum);
    }
  }

  lemma NothingToPush(stack: seq<Chunk>, minimum: nat)
    ensures PushAll(stack, [], minimum) == stack
  {
  }

  lemma NothingSurvives(minimum: nat)
    ensures Survivors([], minimum) == []
  {
  }

  lemma StartWithFirst(chunks: seq<Chunk>, minimum: nat)
    requires chunks != []
    ensures PushAll(chunks[..1], chunks[1..], minimum) == Survivors(chunks, minimum)
  {
    hide CanAbsorb;
    assert chunks[..1] == [chunks[0]] && chunks == chunks[..1] + chunks[1..] && chunks[..1][..0] == [];
    PushAllIsSurvivors(chunks[..1], chunks[1..], minimum);
  }

  lemma AllKept(chunks: seq<Chunk>, units: seq<seq<Unit>>) returns (kept: seq<nat>)
    requires |units| == |chunks|
    ensures KeptFrom(chunks, units, kept, chunks, units)
  {
    kept := seq(|chunks|, i => i);
  }

  lemma KeptLengths(remaining: seq<Chunk>, remainingUnits: seq<seq<Unit>>, kept: seq<nat>,
                    chunks: seq<Chunk>, units: seq<seq<Unit>>)
    requires |units| == |chunks| && KeptFrom(remaining, remainingUnits, kept, chunks, units)
    ensures |remaining| == |remainingUnits| == |kept|
  {
  }

  lemma KeptTaking(remaining: seq<Chunk>, remainingUnits: seq<seq<Unit>>, kept: seq<nat>,
                   chunks: seq<Chunk>, units: seq<seq<Unit>>, index: nat)
    requires |units| == |chunks| && KeptFrom(remaining, remainingUnits, kept, chunks, units)
    requires index + 1 < |remaining|
    ensures |remaining| == |remainingUnits| == |kept|
    ensures KeptFrom(remaining[..index] + [Taking(remaining[index + 1], remaining[index])] + remaining[index + 2..],
                     remainingUnits[..index] + remainingUnits[index + 1..],
                     kept[..index] + kept[index + 1..], chunks, units)
  {
    var next := remaining[..index] + [Taking(remaining[index + 1], remaining[index])] + remaining[index + 2..];
    var nextKept := kept[..index] + kept[index + 1..];
    forall i | 0 <= i < |nextKept|
      ensures nextKept[i] == kept[if i < index then i else i + 1]
      ensures Core(next[i]) == Core(remaining[if i < index then i else i + 1])
    {
    }
  }

  lemma PairsBefore(remaining: seq<Chunk>, index: nat, minimum: nat)
    requires index + 1 < |remaining|
    requires forall i :: 0 <= i < index ==> !CanAbsorb(remaining[i], remaining[i + 1], minimum)
    ensures var next := remaining[..index] + [Taking(remaining[index + 1], remaining[index])] + remaining[index + 2..];
            forall i :: 0 <= i < index - 1 ==> !CanAbsorb(next[i], next[i + 1], minimum)
  {
    hide CanAbsorb;
  }

  lemma NotAbsorbed(remaining: seq<Chunk>, index: nat, minimum: nat)
    requires index + 1 < |remaining| && !CanAbsorb(remaining[index], remaining[index + 1], minimum)
    ensures PushAll(remaining[..index + 1], remaining[index + 1..], minimum) ==
            PushAll(remaining[..index + 2], remaining[index + 2..], minimum)
  {
    hide CanAbsorb;
    assert remaining[index + 1..][1..] == remaining[index + 2..];
    assert remaining[..index + 1] + [remaining[index + 1]] == remaining[..index + 2];
    assert remaining[..index + 1][|remaining[..index + 1]| - 1] == remaining[index];
  }

  lemma AbsorbedAt(remaining: seq<Chunk>, index: nat, minimum: nat)
    requires index + 1 < |remaining| && CanAbsorb(remaining[index], remaining[index + 1], minimum)
    ensures var next := remaining[..index] + [Taking(remaining[index + 1], remaining[index])] + remaining[index + 2..];
            var i := if index > 0 then index - 1 else 0;
            && i < |next|
            && PushAll(remaining[..index + 1], remaining[index + 1..], minimum) ==
               PushAll(next[..i + 1], next[i + 1..], minimum)
  {
    hide *;
    var taken := Taking(remaining[index + 1], remaining[index]);
    var rest := remaining[index + 2..];
    Spliced(remaining, index, taken);
    PushAllStep(remaining[..index + 1], remaining[index + 1], rest, minimum);
    PushTakes(remaining[..index], remaining[index], remaining[index + 1], minimum);
    PushAllStep(remaining[..index], taken, rest, minimum);
    PushFirst(taken, minimum);
  }

  lemma Spliced(xs: seq<Chunk>, index: nat, x: Chunk)
    requires index + 1 < |xs|
    ensures xs[..index + 1] == xs[..index] + [xs[index]]
    ensures xs[index + 1..] == [xs[index + 1]] + xs[index + 2..]
    ensures var next := xs[..index] + [x] + xs[index + 2..];
            if index > 0 then next[..index] == xs[..index] && next[index..] == [x] + xs[index + 2..]
            else next[..1] == [x] && next[1..] == xs[index + 2..] && xs[..index] == []
  {
  }

  lemma PushAllStep(stack: seq<Chunk>, c: Chunk, rest: seq<Chunk>, minimum: nat)
    ensures PushAll(stack, [c] + rest, minimum) == PushAll(Push(stack, c, minimum), rest, minimum)
  {
    assert ([c] + rest)[1..] == rest;
  }

  lemma PushTakes(stack: seq<Chunk>, last: Chunk, c: Chunk, minimum: nat)
    requires CanAbsorb(last, c, minimum)
    ensures Push(stack + [last], c, minimum) == Push(stack, Taking(c, last), minimum)
  {
    assert (stack + [last])[..|stack|] == stack;
  }

  lemma PushFirst(c: Chunk, minimum: nat)
    ensures Push([], c, minimum) == [c]
  {
  }

  // ----- conservation -----

  function Expanded(c: Chunk): seq<Context> {
    c.parentContexts + [ContextOf(c)]
  }

  /** Each chunk after the contexts it took over, in order. */
  function ExpandAll(chunks: seq<Chunk>): seq<Context> {
    if chunks == [] then [] else ExpandAll(chunks[..|chunks| - 1]) + Expanded(chunks[|chunks| - 1])
  }

  /** The two topmost survivors are both small parents of the next chunk. */
  predicate TwoParents(stack: seq<Chunk>, c: Chunk, minimum: nat) {
    && |stack| >= 2
    && CanAbsorb(stack[|stack| - 1], c, minimum)
    && CanAbsorb(stack[|stack| - 2], c, minimum)
  }

  lemma TakingKeepsTarget(a: Chunk, b: Chunk, c: Chunk, minimum: nat)
    ensures CanAbsorb(a, Taking(b, c), minimum) == CanAbsorb(a, b, minimum)
  {
  }

  lemma ExpandSnoc(stack: seq<Chunk>, c: Chunk)
    ensures ExpandAll(stack + [c]) == ExpandAll(stack) + Expanded(c)
  {
    assert (stack + [c])[..|stack|] == stack;
  }

  /** Further absorptions by a chunk that already took something over lose what
      it took. */
  lemma {:induction false} PushLoses(stack: seq<Chunk>, c: Chunk, minimum: nat)
    requires c.parentContexts != []
    ensures if stack != [] && CanAbsorb(stack[|stack| - 1], c, minimum)
            then |ExpandAll(Push(stack, c, minimum))| < |ExpandAll(stack)| + |Expanded(c)|
            else ExpandAll(Push(stack, c, minimum)) == ExpandAll(stack) + Expanded(c)
    decreases |stack|
  {
    hide CanAbsorb;
    if stack != [] && CanAbsorb(stack[|stack| - 1], c, minimum) {
      PushLoses(stack[..|stack| - 1], Taking(c, stack[|stack| - 1]), minimum);
    } else {
      ExpandSnoc(stack, c);
    }
  }

  lemma TwoParentsIs(stack: seq<Chunk>, c: Chunk, minimum: nat)
    ensures TwoParents(stack, c, minimum) <==>
              |stack| >= 2 && CanAbsorb(stack[|stack| - 1], c, minimum) && CanAbsorb(stack[|stack| - 2], c, minimum)
  {
  }

  lemma PushIs(stack: seq<Chunk>, c: Chunk, minimum: nat)
    ensures Push(stack, c, minimum) ==
            if stack != [] && CanAbsorb(stack[|stack| - 1], c, minimum)
            then Push(stack[..|stack| - 1], Taking(c, stack[|stack| - 1]), minimum) else stack + [c]
  {
  }

  lemma FreshExpands(c: Chunk)
    requires c.parentContexts == []
    ensures Expanded(c) == [ContextOf(c)]
  {
  }

  lemma TakingExpands(c: Chunk, top: Chunk)
    ensures Expanded(Taking(c, top)) == Expanded(top) + [ContextOf(c)] && Taking(c, top).parentContexts != []
  {
  }

  lemma PushAbsorbs(below: seq<Chunk>, top: Chunk, c: Chunk, minimum: nat)
    requires c.parentContexts == []
    ensures var r := ExpandAll(Push(below, Taking(c, top), minimum));
            if below != [] && CanAbsorb(below[|below| - 1], c, minimum)
            then |r| < |ExpandAll(below + [top])| + 1
            else r == ExpandAll(below + [top]) + [ContextOf(c)]
  {
    hide *;
    TakingExpands(c, top);
    ExpandSnoc(below, top);
    PushLoses(below, Taking(c, top), minimum);
    if below != [] { TakingKeepsTarget(below[|below| - 1], c, top, minimum); }
    Text.ConcatAssociative(ExpandAll(below), Expanded(top), [ContextOf(c)]);
  }

  /** One chunk enters without loss exactly when it has at most one parent to take. */
  lemma PushStep(stack: seq<Chunk>, c: Chunk, minimum: nat)
    requires c.parentContexts == []
    ensures if TwoParents(stack, c, minimum)
            then |ExpandAll(Push(stack, c, minimum))| < |ExpandAll(stack)| + 1
            else ExpandAll(Push(stack, c, minimum)) == ExpandAll(stack) + [ContextOf(c)]
  {
    hide *;
    PushIs(stack, c, minimum);
    TwoParentsIs(stack, c, minimum);
    if stack != [] && CanAbsorb(stack[|stack| - 1], c, minimum) {
      var top, below := stack[|stack| - 1], stack[..|stack| - 1];
      assert stack == below + [top];
      PushAbsorbs(below, top, c, minimum);
    } else {
      FreshExpands(c);
      ExpandSnoc(stack, c);
    }
  }

  function Contexts(chunks: seq<Chunk>): (r: seq<Context>)
    ensures |r| == |chunks|
  {
    if chunks == [] then [] else Contexts(chunks[..|chunks| - 1]) + [ContextOf(chunks[|chunks| - 1])]
  }

  predicate Fresh(chunks: seq<Chunk>) {
    forall i :: 0 <= i < |chunks| ==> chunks[i].parentContexts == []
  }

  /** No chunk of the input meets two parents on the stack of survivors before it. */
  predicate OneParentEach(chunks: seq<Chunk>, minimum: nat) {
    forall k :: 0 <= k < |chunks| ==> !TwoParents(Survivors(chunks[..k], minimum), chunks[k], minimum)
  }

  lemma {:induction false} ExpansionLength(chunks: seq<Chunk>, minimum: nat)
    requires Fresh(chunks)
    ensures |ExpandAll(Survivors(chunks, minimum))| <= |chunks|
    ensures |ExpandAll(Survivors(chunks, minimum))| == |chunks| <==> OneParentEach(chunks, minimum)
    ensures OneParentEach(chunks, minimum) ==> ExpandAll(Survivors(chunks, minimum)) == Contexts(chunks)
  {
    hide CanAbsorb, TwoParents, Push, OneParentEach;
    if chunks == [] {
      NoChunks(minimum);
    } else {
      var init, last := chunks[..|chunks| - 1], chunks[|chunks| - 1];
      ExpansionLength(init, minimum);
      PushStep(Survivors(init, minimum), last, minimum);
      OneParentSnoc(chunks, minimum);
    }
  }

  lemma NoChunks(minimum: nat)
    ensures OneParentEach([], minimum)
  {
  }

  lemma OneParentSnoc(chunks: seq<Chunk>, minimum: nat)
    requires chunks != []
    ensures OneParentEach(chunks, minimum) <==>
            && OneParentEach(chunks[..|chunks| - 1], minimum)
            && !TwoParents(Survivors(chunks[..|chunks| - 1], minimum), chunks[|chunks| - 1], minimum)
  {
    hide TwoParents, Survivors;
    var init := chunks[..|chunks| - 1];
    forall k | 0 <= k < |init| ensures init[..k] == chunks[..k] { }
    assert forall k :: 0 <= k < |init| ==>
             (TwoParents(Survivors(init[..k], minimum), init[k], minimum) <==>
              TwoParents(Survivors(chunks[..k], minimum), chunks[k], minimum));
  }

  // ----- which chunks remain below a new one -----

  /** The chunks up to the last one that `c` cannot take. */
  function Reach(chunks: seq<Chunk>, c: Chunk, minimum: nat): (r: nat)
    ensures r <= |chunks|
    ensures r > 0 ==> !CanAbsorb(chunks[r - 1], c, minimum)
    ensures forall j :: r <= j < |chunks| ==> CanAbsorb(chunks[j], c, minimum)
  {
    if chunks == [] then 0
    else if CanAbsorb(chunks[|chunks| - 1], c, minimum) then Reach(chunks[..|chunks| - 1], c, minimum)
    else |chunks|
  }

  lemma AbsorbTransitive(a: Chunk, b: Chunk, c: Chunk, minimum: nat)
    requires CanAbsorb(a, b, minimum) && CanAbsorb(b, c, minimum)
    ensures CanAbsorb(a, c, minimum)
  {
  }

  lemma AbsorbByCore(a: Chunk, b: Chunk, c: Chunk, d: Chunk, minimum: nat)
    requires Core(a) == Core(b) && Core(c) == Core(d)
    ensures CanAbsorb(a, c, minimum) == CanAbsorb(b, d, minimum)
  {
    assert a.(parentContexts := []) == b.(parentContexts := []);
    assert c.(parentContexts := []) == d.(parentContexts := []);
  }

  /** `c` reaches as far when the chunks behind `cut` can all be taken. */
  lemma ReachCut(chunks: seq<Chunk>, cut: nat, c: Chunk, d: Chunk, minimum: nat)
    requires cut <= |chunks| && Core(c) == Core(d)
    requires forall j :: cut <= j < |chunks| ==> CanAbsorb(chunks[j], c, minimum)
    ensures Reach(chunks[..cut], d, minimum) == Reach(chunks, c, minimum)
  {
    hide CanAbsorb, Core, Reach;
    forall j | 0 <= j < |chunks| ensures CanAbsorb(chunks[j], c, minimum) == CanAbsorb(chunks[j], d, minimum) {
      AbsorbByCore(chunks[j], chunks[j], c, d, minimum);
    }
    assert forall j :: 0 <= j < cut ==> chunks[..cut][j] == chunks[j];
  }

  lemma TopIsLast(chunks: seq<Chunk>, minimum: nat)
    requires chunks != []
    ensures Survivors(chunks, minimum) != []
    ensures Survivors(chunks, minimum) == Push(Survivors(chunks[..|chunks| - 1], minimum), chunks[|chunks| - 1], minimum)
    ensures var stack := Survivors(chunks, minimum); Core(stack[|stack| - 1]) == Core(chunks[|chunks| - 1])
  {
  }

  /** Below a chunk that enters there remains what survives of the chunks up to
      the last one it cannot take. */
  lemma {:induction false} BelowIs(chunks: seq<Chunk>, c: Chunk, minimum: nat)
    ensures var r := Push(Survivors(chunks, minimum), c, minimum);
            r[..|r| - 1] == Survivors(chunks[..Reach(chunks, c, minimum)], minimum)
    decreases |chunks|
  {
    hide *;
    if chunks == [] {
      BelowNothing(c, minimum);
      assert chunks[..Reach(chunks, c, minimum)] == [];
    } else {
      var n, stack := |chunks| - 1, Survivors(chunks, minimum);
      TopIsLast(chunks, minimum);
      var top := stack[|stack| - 1];
      AbsorbByCore(top, chunks[n], c, c, minimum);
      PushIs(stack, c, minimum);
      if CanAbsorb(top, c, minimum) {
        var cut, taking := Reach(chunks[..n], chunks[n], minimum), Taking(c, top);
        BelowIs(chunks[..n], chunks[n], minimum);
        assert chunks[..n][..cut] == chunks[..cut];
        BelowIs(chunks[..cut], taking, minimum);
        TakenBetween(chunks, cut, c, minimum);
        TakingCore(c, top);
        ReachCut(chunks, cut, c, taking, minimum);
        assert chunks[..cut][..Reach(chunks, c, minimum)] == chunks[..Reach(chunks, c, minimum)];
      } else {
        assert chunks[..Reach(chunks, c, minimum)] == chunks;
        assert (stack + [c])[..|stack|] == stack;
      }
    }
  }

  lemma BelowNothing(c: Chunk, minimum: nat)
    ensures Survivors([], minimum) == [] && Push([], c, minimum) == [c]
  {
  }

  lemma TakenBetween(chunks: seq<Chunk>, cut: nat, c: Chunk, minimum: nat)
    requires chunks != [] && CanAbsorb(chunks[|chunks| - 1], c, minimum)
    requires cut == Reach(chunks[..|chunks| - 1], chunks[|chunks| - 1], minimum)
    ensures forall j :: cut <= j < |chunks| ==> CanAbsorb(chunks[j], c, minimum)
  {
    hide CanAbsorb, Reach;
    var n := |chunks| - 1;
    forall j | cut <= j < n ensures CanAbsorb(chunks[j], c, minimum) {
      assert CanAbsorb(chunks[..n][j], chunks[n], minimum);
      AbsorbTransitive(chunks[j], chunks[n], c, minimum);
    }
  }

  lemma TakingCore(c: Chunk, top: Chunk)
    ensures Core(Taking(c, top)) == Core(c)
  {
  }

  /** The chunk behind `k` takes `k` and `i`, which `k` has not taken, and nothing
      between the two keeps them apart. */
  predicate LossAt(chunks: seq<Chunk>, minimum: nat, i: nat, k: nat) {
    && i < k && k + 1 < |chunks|
    && CanAbsorb(chunks[i], chunks[k + 1], minimum) && CanAbsorb(chunks[k], chunks[k + 1], minimum)
    && !CanAbsorb(chunks[i], chunks[k], minimum)
    && forall j :: i < j < k ==> CanAbsorb(chunks[j], chunks[k], minimum)
  }

  predicate NothingLost(chunks: seq<Chunk>, minimum: nat) {
    forall i, k :: 0 <= i < k < |chunks| ==> !LossAt(chunks, minimum, i, k)
  }

  /** The one place where a loss at `k` can come from. */
  lemma LossIsAtReach(chunks: seq<Chunk>, minimum: nat, i: nat, k: nat)
    requires LossAt(chunks, minimum, i, k)
    ensures i < k && k + 1 < |chunks| && Reach(chunks[..k], chunks[k], minimum) == i + 1
  {
    hide CanAbsorb, Reach;
    assert forall j :: 0 <= j < k ==> chunks[..k][j] == chunks[j];
  }

  lemma LossAtReachIs(chunks: seq<Chunk>, minimum: nat, k: nat)
    requires k + 1 < |chunks| && Reach(chunks[..k], chunks[k], minimum) > 0
    ensures var i := Reach(chunks[..k], chunks[k], minimum) - 1;
            LossAt(chunks, minimum, i, k) <==>
            CanAbsorb(chunks[i], chunks[k + 1], minimum) && CanAbsorb(chunks[k], chunks[k + 1], minimum)
  {
    hide CanAbsorb, Reach;
    assert forall j :: 0 <= j < k ==> chunks[..k][j] == chunks[j];
  }

  /** A chunk meets two parents exactly when there is a loss at the chunk before it. */
  lemma TwoParentsIff(chunks: seq<Chunk>, minimum: nat, k: nat)
    requires k + 1 < |chunks|
    ensures var cut := Reach(chunks[..k], chunks[k], minimum);
            TwoParents(Survivors(chunks[..k + 1], minimum), chunks[k + 1], minimum) <==>
            cut > 0 && LossAt(chunks, minimum, cut - 1, k)
  {
    hide *;
    var c, cut := chunks[k + 1], Reach(chunks[..k], chunks[k], minimum);
    var stack := Survivors(chunks[..k + 1], minimum);
    assert chunks[..k + 1][..k] == chunks[..k] && chunks[..k][..cut] == chunks[..cut];
    TopIsLast(chunks[..k + 1], minimum);
    AbsorbByCore(stack[|stack| - 1], chunks[k], c, c, minimum);
    BelowIs(chunks[..k], chunks[k], minimum);
    TwoParentsIs(stack, c, minimum);
    if cut > 0 {
      TopIsLast(chunks[..cut], minimum);
      assert stack[|stack| - 2] == stack[..|stack| - 1][|stack| - 2];
      AbsorbByCore(stack[|stack| - 2], chunks[cut - 1], c, c, minimum);
      LossAtReachIs(chunks, minimum, k);
    } else {
      assert chunks[..cut] == [];
      BelowNothing(c, minimum);
    }
  }

  lemma OneParentIff(chunks: seq<Chunk>, minimum: nat)
    ensures OneParentEach(chunks, minimum) <==> NothingLost(chunks, minimum)
  {
    hide LossAt, TwoParents, Survivors, Reach;
    if OneParentEach(chunks, minimum) {
      forall i, k | 0 <= i < k < |chunks| ensures !LossAt(chunks, minimum, i, k) {
        if LossAt(chunks, minimum, i, k) {
          LossIsAtReach(chunks, minimum, i, k);
          TwoParentsIff(chunks, minimum, k);
        }
      }
    }
    if NothingLost(chunks, minimum) {
      forall n | 0 <= n < |chunks| ensures !TwoParents(Survivors(chunks[..n], minimum), chunks[n], minimum) {
        if n == 0 {
          NoParents(chunks[0], minimum);
          assert chunks[..0] == [];
        } else {
          TwoParentsIff(chunks, minimum, n - 1);
        }
      }
    }
  }

  lemma NoParents(c: Chunk, minimum: nat)
    ensures !TwoParents(Survivors([], minimum), c, minimum)
  {
  }

  /** Absorption keeps every chunk's text, in order, exactly when no two chunks of
      the input stand like that before a third. */
  lemma LosslessIff(chunks: seq<Chunk>, minimum: nat)
    requires Fresh(chunks)
    ensures ExpandAll(Survivors(chunks, minimum)) == Contexts(chunks) <==> NothingLost(chunks, minimum)
  {
    hide OneParentEach, NothingLost;
    ExpansionLength(chunks, minimum);
    OneParentIff(chunks, minimum);
  }

  // ----- a condition on the section paths alone -----

  /** No later small chunk sits at, or above, an earlier small chunk's section. */
  predicate NoReturn(chunks: seq<Chunk>, minimum: nat) {
    forall i, k :: 0 <= i < k < |chunks| && chunks[i].tokenCount < minimum && chunks[k].tokenCount < minimum ==>
                     !(chunks[k].sectionPath <= chunks[i].sectionPath)
  }

  lemma SurvivorBelow(chunks: seq<Chunk>, minimum: nat, p: nat)
    requires p + 1 < |Survivors(chunks, minimum)|
    ensures chunks != [] && p < |Survivors(chunks[..|chunks| - 1], minimum)|
    ensures Survivors(chunks, minimum)[p] == Survivors(chunks[..|chunks| - 1], minimum)[p]
  {
    hide Push, CanAbsorb, Core;
    var r := Survivors(chunks, minimum);
    assert r[..|r| - 1][p] == r[p];
  }

  lemma {:induction false} SurvivorAt(chunks: seq<Chunk>, minimum: nat, p: nat) returns (i: nat)
    requires p < |Survivors(chunks, minimum)|
    ensures i < |chunks| && Core(Survivors(chunks, minimum)[p]) == Core(chunks[i])
  {
    BelowNothing(REPEATED, minimum);
    hide *;
    if p + 1 < |Survivors(chunks, minimum)| {
      SurvivorBelow(chunks, minimum, p);
      i := SurvivorAt(chunks[..|chunks| - 1], minimum, p);
    } else {
      TopIsLast(chunks, minimum);
      i := |chunks| - 1;
    }
  }

  /** Survivors keep the order of the input. */
  lemma {:induction false} SurvivorPair(chunks: seq<Chunk>, minimum: nat, p: nat, q: nat) returns (i: nat, k: nat)
    requires p < q < |Survivors(chunks, minimum)|
    ensures i < k < |chunks|
    ensures Core(Survivors(chunks, minimum)[p]) == Core(chunks[i])
    ensures Core(Survivors(chunks, minimum)[q]) == Core(chunks[k])
  {
    hide *;
    SurvivorBelow(chunks, minimum, p);
    if q + 1 < |Survivors(chunks, minimum)| {
      SurvivorBelow(chunks, minimum, q);
      i, k := SurvivorPair(chunks[..|chunks| - 1], minimum, p, q);
    } else {
      TopIsLast(chunks, minimum);
      i := SurvivorAt(chunks[..|chunks| - 1], minimum, p);
      k := |chunks| - 1;
    }
  }

  lemma {:induction false} PushKeepsBig(stack: seq<Chunk>, c: Chunk, minimum: nat, p: nat)
    requires p < |stack| && stack[p].tokenCount >= minimum
    ensures p + 1 < |Push(stack, c, minimum)| && Push(stack, c, minimum)[p] == stack[p]
    decreases |stack|
  {
    if CanAbsorb(stack[|stack| - 1], c, minimum) {
      PushKeepsBig(stack[..|stack| - 1], Taking(c, stack[|stack| - 1]), minimum, p);
    }
  }

  /** A chunk that is not small survives. */
  lemma {:induction false} BigSurvives(chunks: seq<Chunk>, minimum: nat, k: nat) returns (p: nat)
    requires k < |chunks| && chunks[k].tokenCount >= minimum
    ensures p < |Survivors(chunks, minimum)| && Core(Survivors(chunks, minimum)[p]) == Core(chunks[k])
  {
    hide Push, CanAbsorb;
    TopIsLast(chunks, minimum);
    if k == |chunks| - 1 {
      p := |Survivors(chunks, minimum)| - 1;
    } else {
      p := BigSurvives(chunks[..|chunks| - 1], minimum, k);
      assert Survivors(chunks[..|chunks| - 1], minimum)[p].(parentContexts := []) == chunks[k].(parentContexts := []);
      PushKeepsBig(Survivors(chunks[..|chunks| - 1], minimum), chunks[|chunks| - 1], minimum, p);
    }
  }

  lemma {:induction false} PushSettles(stack: seq<Chunk>, c: Chunk, minimum: nat)
    requires NoneAbsorbable(stack, minimum)
    ensures NoneAbsorbable(Push(stack, c, minimum), minimum)
    decreases |stack|
  {
    hide CanAbsorb;
    if stack != [] && CanAbsorb(stack[|stack| - 1], c, minimum) {
      PushSettles(stack[..|stack| - 1], Taking(c, stack[|stack| - 1]), minimum);
    }
  }

  lemma {:induction false} SurvivorsSettled(chunks: seq<Chunk>, minimum: nat)
    ensures NoneAbsorbable(Survivors(chunks, minimum), minimum)
  {
    hide CanAbsorb;
    if chunks != [] {
      SurvivorsSettled(chunks[..|chunks| - 1], minimum);
      PushSettles(Survivors(chunks[..|chunks| - 1], minimum), chunks[|chunks| - 1], minimum);
    }
  }

  // ----- what is taken over -----

  /** A small chunk of prose, of a section above that of `heir` and of its zone. */
  ghost predicate SmallAbove(c: Chunk, heir: Chunk, minimum: nat) {
    && c.tokenCount < minimum && c.sectionId != None && c.zone == heir.zone
    && (forall t :: t in c.contentTypes ==> t in {"paragraph", "list"})
    && 0 < |c.sectionPath| < |heir.sectionPath| && heir.sectionPath[..|c.sectionPath|] == c.sectionPath
  }

  lemma SmallAboveIff(c: Chunk, heir: Chunk, minimum: nat)
    ensures CanAbsorb(c, heir, minimum) <==> SmallAbove(c, heir, minimum)
  {
  }

  ghost predicate Records(x: Context, c: Chunk) {
    && x.sectionId == c.sectionId && x.sectionPath == c.sectionPath && x.zone == c.zone
    && x.blockIds == c.blockIds && x.content == c.content && x.tokenCount == c.tokenCount
  }

  ghost predicate TakenFrom(x: Context, heir: Chunk, chunks: seq<Chunk>, minimum: nat) {
    exists i :: 0 <= i < |chunks| && Records(x, chunks[i]) && SmallAbove(chunks[i], heir, minimum)
  }

  /** All that `c` took over comes from such chunks among `chunks`. */
  ghost predicate TakesOver(c: Chunk, chunks: seq<Chunk>, minimum: nat) {
    forall x :: x in c.parentContexts ==> TakenFrom(x, c, chunks, minimum)
  }

  ghost predicate IsOneOf(c: Chunk, chunks: seq<Chunk>) {
    exists i :: 0 <= i < |chunks| && Core(c) == Core(chunks[i])
  }

  ghost predicate AllTakeOver(r: seq<Chunk>, chunks: seq<Chunk>, minimum: nat) {
    forall k :: 0 <= k < |r| ==> TakesOver(r[k], chunks, minimum) && IsOneOf(r[k], chunks)
  }

  lemma TakingRecords(c: Chunk, top: Chunk, chunks: seq<Chunk>, minimum: nat)
    requires TakesOver(top, chunks, minimum) && IsOneOf(top, chunks) && CanAbsorb(top, c, minimum)
    ensures TakesOver(Taking(c, top), chunks, minimum)
  {
    hide SmallAbove, CanAbsorb, Records;
    SmallAboveIff(top, c, minimum);
    var heir := Taking(c, top);
    forall x | x in heir.parentContexts ensures TakenFrom(x, heir, chunks, minimum) {
      if x in top.parentContexts {
        var i :| 0 <= i < |chunks| && Records(x, chunks[i]) && SmallAbove(chunks[i], top, minimum);
        AboveAbove(chunks[i], top, c, heir, minimum);
      } else {
        var i :| 0 <= i < |chunks| && Core(top) == Core(chunks[i]);
        SameCore(top, chunks[i], c, heir, minimum);
      }
    }
  }

  lemma AboveAbove(a: Chunk, b: Chunk, c: Chunk, heir: Chunk, minimum: nat)
    requires SmallAbove(a, b, minimum) && SmallAbove(b, c, minimum) && heir == Taking(c, b)
    ensures SmallAbove(a, heir, minimum)
  {
    assert a.sectionPath == b.sectionPath[..|a.sectionPath|] == c.sectionPath[..|a.sectionPath|];
  }

  lemma SameCore(a: Chunk, b: Chunk, c: Chunk, heir: Chunk, minimum: nat)
    requires Core(a) == Core(b) && SmallAbove(a, c, minimum) && heir == Taking(c, a)
    ensures SmallAbove(b, heir, minimum) && Records(ContextOf(a), b)
  {
    assert b == Core(b).(parentContexts := b.parentContexts) && a == Core(b).(parentContexts := a.parentContexts);
  }

  lemma {:induction false} PushTakesOver(stack: seq<Chunk>, c: Chunk, chunks: seq<Chunk>, minimum: nat)
    requires AllTakeOver(stack, chunks, minimum)
    requires TakesOver(c, chunks, minimum) && IsOneOf(c, chunks)
    ensures AllTakeOver(Push(stack, c, minimum), chunks, minimum)
    decreases |stack|
  {
    hide CanAbsorb, TakesOver, IsOneOf, Push, Taking;
    PushIs(stack, c, minimum);
    if stack != [] && CanAbsorb(stack[|stack| - 1], c, minimum) {
      var top := stack[|stack| - 1];
      TakingRecords(c, top, chunks, minimum);
      assert IsOneOf(Taking(c, top), chunks) by { TakingIsOne(c, top, chunks); }
      PushTakesOver(stack[..|stack| - 1], Taking(c, top), chunks, minimum);
    }
  }

  lemma TakingIsOne(c: Chunk, top: Chunk, chunks: seq<Chunk>)
    requires IsOneOf(c, chunks)
    ensures IsOneOf(Taking(c, top), chunks)
  {
    assert Core(Taking(c, top)) == Core(c);
  }

  lemma MoreChunks(c: Chunk, chunks: seq<Chunk>, more: seq<Chunk>, minimum: nat)
    requires TakesOver(c, chunks, minimum) && IsOneOf(c, chunks) && chunks <= more
    ensures TakesOver(c, more, minimum) && IsOneOf(c, more)
  {
    hide SmallAbove, Records;
    var i :| 0 <= i < |chunks| && Core(c) == Core(chunks[i]);
    assert Core(c) == Core(more[i]);
    forall x | x in c.parentContexts ensures TakenFrom(x, c, more, minimum) {
      var k :| 0 <= k < |chunks| && Records(x, chunks[k]) && SmallAbove(chunks[k], c, minimum);
      assert Records(x, more[k]) && SmallAbove(more[k], c, minimum);
    }
  }

  /** Whatever a survivor took over is the unchanged record of an input chunk that is
      small, of prose, and of a section above in the same zone; and no survivor is
      such a chunk to the next. */
  lemma {:induction false} SurvivorsTakeOver(chunks: seq<Chunk>, minimum: nat)
    requires Fresh(chunks)
    ensures AllTakeOver(Survivors(chunks, minimum), chunks, minimum)
    ensures var r := Survivors(chunks, minimum);
            forall k :: 0 <= k < |r| - 1 ==> !SmallAbove(r[k], r[k + 1], minimum)
  {
    hide CanAbsorb, TakesOver, IsOneOf, SmallAbove, Push;
    var r := Survivors(chunks, minimum);
    SurvivorsSettled(chunks, minimum);
    forall k | 0 <= k < |r| - 1 ensures !SmallAbove(r[k], r[k + 1], minimum) {
      SmallAboveIff(r[k], r[k + 1], minimum);
    }
    if chunks != [] {
      var n := |chunks| - 1;
      var below := Survivors(chunks[..n], minimum);
      SurvivorsTakeOver(chunks[..n], minimum);
      assert r == Push(below, chunks[n], minimum);
      forall k | 0 <= k < |below| ensures TakesOver(below[k], chunks, minimum) && IsOneOf(below[k], chunks) {
        MoreChunks(below[k], chunks[..n], chunks, minimum);
      }
      FreshTakesNothing(chunks, n, minimum);
      PushTakesOver(below, chunks[n], chunks, minimum);
    }
  }

  lemma FreshTakesNothing(chunks: seq<Chunk>, k: nat, minimum: nat)
    requires Fresh(chunks) && k < |chunks|
    ensures TakesOver(chunks[k], chunks, minimum) && IsOneOf(chunks[k], chunks)
  {
    assert Core(chunks[k]) == Core(chunks[k]);
  }

  lemma PrefixesCompare(x: seq<string>, y: seq<string>, path: seq<string>)
    requires x <= path && y <= path
    ensures x <= y || y <= x
  {
    if |y| <= |x| {
      assert y == x[..|y|];
    } else {
      assert x == y[..|x|];
    }
  }

  /** Two small parents of one chunk are themselves parent and child unless the
      upper one comes second. */
  lemma NestedParents(a: Chunk, c: Chunk, d: Chunk, minimum: nat)
    requires CanAbsorb(a, d, minimum) && CanAbsorb(c, d, minimum)
    requires !(c.sectionPath <= a.sectionPath)
    ensures CanAbsorb(a, c, minimum)
  {
    PrefixesCompare(a.sectionPath, c.sectionPath, d.sectionPath);
  }

  /** If no later small chunk's section path equals or is a prefix of an earlier
      small chunk's path, absorption loses nothing. */
  lemma NoReturnIsLossless(chunks: seq<Chunk>, minimum: nat)
    requires Fresh(chunks) && NoReturn(chunks, minimum)
    ensures ExpandAll(Survivors(chunks, minimum)) == Contexts(chunks)
  {
    hide ExpandAll, Survivors, Contexts;
    forall i, k | 0 <= i < k < |chunks| ensures !LossAt(chunks, minimum, i, k) {
      if LossAt(chunks, minimum, i, k) { NestedParents(chunks[i], chunks[k], chunks[k + 1], minimum); }
    }
    LosslessIff(chunks, minimum);
  }

  /** Two small chunks of one section path before a subsection of it, as when a
      section title repeats: the second one's text is dropped when the first is
      absorbed after it. */
  lemma AbsorptionCanLose(a: Chunk, b: Chunk, c: Chunk, minimum: nat)
    requires Fresh([a, b, c]) && a.sectionPath == b.sectionPath
    requires CanAbsorb(a, c, minimum) && CanAbsorb(b, c, minimum)
    ensures ExpandAll(Survivors([a, b, c], minimum)) != Contexts([a, b, c])
  {
    hide ExpandAll, Survivors, Contexts;
    var chunks := [a, b, c];
    assert LossAt(chunks, minimum, 0, 1);
    LosslessIff(chunks, minimum);
  }

  const REPEATED: Chunk :=
    Chunk(Some("s1"), ["Method"], Some("main_body"), 1, 1, ["b1"], [], ["paragraph"], "text", 1, [], None)

  /** Such chunks exist. */
  lemma LossIsPossible()
    ensures var a, c := REPEATED, REPEATED.(sectionPath := ["Method", "Data"]);
            Fresh([a, a, c]) && CanAbsorb(a, c, 80)
  {
    var parent, child := REPEATED.sectionPath, ["Method", "Data"];
    assert parent == child[..1];
  }
}
