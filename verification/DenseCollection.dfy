/** The stored collection and the incremental run over it, which may stop at any
    committed call. */
module DenseCollection {
  import opened DenseIndex

  const PAGE := 256
  const BATCH := 64

  datatype Manifest = Manifest(digests: map<string, seq<Entry>>, dimension: nat, chunkCount: nat)

  /** How a run ends: with its manifest written, stopped after a committed call,
      or refused by a check on the vectors. */
  datatype Outcome = Completed | Stopped | BadVectors

  function Matching(points: Points, paperId: string): set<string> {
    set id | id in points && points[id].paperId == paperId
  }

  class Collection {
    var points: Points

    constructor ()
      ensures points == map[]
    {
      points := map[];
    }

    /** A page of ids of one paper's points; empty only when there are none. */
    method Scroll(paperId: string, limit: nat) returns (ids: set<string>)
      ensures ids <= Matching(points, paperId) && |ids| <= limit
      ensures limit > 0 && Matching(points, paperId) != {} ==> ids != {}
    {
      ids := {};
      var rest := Matching(points, paperId);
      while rest != {} && |ids| < limit
        invariant ids + rest == Matching(points, paperId) && ids !! rest
        invariant |ids| <= limit
        decreases rest
      {
        var id :| id in rest;
        ids, rest := ids + {id}, rest - {id};
      }
    }

    method Delete(ids: set<string>)
      modifies this
      ensures points == old(points) - ids
    {
      points := points - ids;
    }

    method Upsert(chunks: seq<Chunk>, embed: string -> Vector)
      modifies this
      ensures points == Upserted(old(points), chunks, embed)
    {
      for i := 0 to |chunks|
        invariant points == Upserted(old(points), chunks[..i], embed)
      {
        assert chunks[..i + 1][..i] == chunks[..i];
        points := points[IdOf(chunks[i]) := PointOf(chunks[i], embed)];
      }
      assert chunks[..|chunks|] == chunks;
    }
  }

  lemma DeletePage(points: Points, ids: set<string>, paperId: string, changed: set<string>)
    requires ids <= Matching(points, paperId) && paperId in changed
    ensures Outside(points - ids, changed) == Outside(points, changed)
    ensures Matching(points - ids, paperId) == Matching(points, paperId) - ids
    ensures forall p :: p != paperId ==> Matching(points - ids, p) == Matching(points, p)
  {
  }

  lemma NothingMatches(points: Points, changed: set<string>)
    requires forall p :: p in changed ==> Matching(points, p) == {}
    ensures points == Outside(points, changed)
  {
    forall id | id in points ensures points[id].paperId !in changed {
      assert id in Matching(points, points[id].paperId);
    }
  }

  /** Deleting page by page from the front terminates and clears the papers. The
      run may stop after `calls` deletions. */
  method DeletePaperPoints(collection: Collection, paperIds: set<string>, calls: nat)
    returns (deleted: nat, left: nat, stopped: bool)
    modifies collection
    ensures Outside(collection.points, paperIds) == Outside(old(collection.points), paperIds)
    ensures collection.points.Keys <= old(collection.points).Keys
    ensures forall id :: id in collection.points ==> collection.points[id] == old(collection.points)[id]
    ensures !stopped ==> collection.points == Outside(old(collection.points), paperIds)
    ensures deleted + |collection.points| == |old(collection.points)|
    ensures left <= calls
  {
    hide Outside, Matching;
    deleted, left, stopped := 0, calls, false;
    ghost var before := collection.points;
    var todo := paperIds;
    while todo != {}
      invariant todo <= paperIds && left <= calls
      invariant Outside(collection.points, paperIds) == Outside(before, paperIds)
      invariant collection.points.Keys <= before.Keys
      invariant forall id :: id in collection.points ==> collection.points[id] == before[id]
      invariant forall p :: p in paperIds - todo ==> Matching(collection.points, p) == {}
      invariant deleted + |collection.points| == |before|
      decreases todo
    {
      var paperId :| paperId in todo;
      while true
        invariant left <= calls
        invariant Outside(collection.points, paperIds) == Outside(before, paperIds)
        invariant collection.points.Keys <= before.Keys
        invariant forall id :: id in collection.points ==> collection.points[id] == before[id]
        invariant forall p :: p in paperIds - todo ==> Matching(collection.points, p) == {}
        invariant deleted + |collection.points| == |before|
        decreases |collection.points|
      {
        var ids := collection.Scroll(paperId, PAGE);
        if ids == {} { break; }
        if left == 0 {
          stopped := true;
          return;
        }
        DeletePage(collection.points, ids, paperId, paperIds);
        PageSize(collection.points, ids, paperId);
        collection.Delete(ids);
        deleted, left := deleted + |ids|, left - 1;
      }
      todo := todo - {paperId};
    }
    NothingMatches(collection.points, paperIds);
  }

  lemma PageSize(points: Points, ids: set<string>, paperId: string)
    requires ids <= Matching(points, paperId)
    ensures |(points - ids)| + |ids| == |points|
  {
    var rest := points - ids;
    assert rest.Keys == points.Keys - ids && ids <= points.Keys;
    assert points.Keys == rest.Keys + ids;
    assert |points| == |points.Keys| && |rest| == |rest.Keys|;
  }

  lemma {:induction false} UpsertOutside(points: Points, chunks: seq<Chunk>, changed: set<string>, embed: string -> Vector)
    requires Keyed(points) && CleanChunks(chunks)
    requires forall i :: 0 <= i < |chunks| ==> chunks[i].paperId in changed
    ensures Outside(Upserted(points, chunks, embed), changed) == Outside(points, changed)
  {
    if chunks != [] {
      var init, last := chunks[..|chunks| - 1], chunks[|chunks| - 1];
      UpsertOutside(points, init, changed, embed);
      var before := Upserted(points, init, embed);
      UpsertedKeyed(points, init, embed);
      if IdOf(last) in before { ClaimedByOwner(before, last, IdOf(last)); }
    }
  }

  lemma CleanSlice(chunks: seq<Chunk>, from: nat, to: nat)
    requires CleanChunks(chunks) && from <= to <= |chunks|
    ensures CleanChunks(chunks[from..to])
  {
  }

  predicate Uniform(chunks: seq<Chunk>, embed: string -> Vector, dimension: nat) {
    dimension > 0 && forall i :: 0 <= i < |chunks| ==> |embed(chunks[i].denseText)| == dimension
  }

  lemma UniformIs(chunks: seq<Chunk>, embed: string -> Vector, dimension: nat)
    requires Uniform(chunks, embed, dimension)
    ensures forall c :: c in chunks ==> 0 < |embed(c.denseText)| == dimension
  {
  }

  lemma NotUniform(chunks: seq<Chunk>, embed: string -> Vector)
    requires chunks != [] && !Uniform(chunks, embed, |embed(chunks[0].denseText)|)
    ensures exists c, d :: c in chunks && d in chunks
              && (|embed(c.denseText)| == 0 || |embed(c.denseText)| != |embed(d.denseText)|)
  {
    assert chunks[0] in chunks;
    if |embed(chunks[0].denseText)| > 0 {
      var i :| 0 <= i < |chunks| && |embed(chunks[i].denseText)| != |embed(chunks[0].denseText)|;
      assert chunks[i] in chunks;
    }
  }

  /** Writing in batches of BATCH points, possibly stopping in between. */
  method UpsertBatches(collection: Collection, chunks: seq<Chunk>, ghost changed: set<string>,
                       embed: string -> Vector, calls: nat)
    returns (stopped: bool)
    requires forall i :: 0 <= i < |chunks| ==> chunks[i].paperId in changed
    modifies collection
    ensures !stopped ==> collection.points == Upserted(old(collection.points), chunks, embed)
    ensures Keyed(old(collection.points)) && CleanChunks(chunks) ==>
              Keyed(collection.points)
              && Outside(collection.points, changed) == Outside(old(collection.points), changed)
  {
    hide Outside, Upserted, Keyed;
    stopped := false;
    ghost var before := collection.points;
    var start, left := 0, calls;
    UpsertNothing(before, embed);
    while start < |chunks|
      invariant 0 <= start
      invariant var done := if start <= |chunks| then start else |chunks|;
                collection.points == Upserted(before, chunks[..done], embed)
    {
      if left == 0 {
        stopped := true;
        break;
      }
      var end := if start + BATCH <= |chunks| then start + BATCH else |chunks|;
      UpsertedConcat(before, chunks[..start], chunks[start..end], embed);
      assert chunks[..start] + chunks[start..end] == chunks[..end];
      collection.Upsert(chunks[start..end], embed);
      start, left := start + BATCH, left - 1;
    }
    ghost var done := if start <= |chunks| then start else |chunks|;
    assert !stopped ==> chunks[..done] == chunks;
    if Keyed(before) && CleanChunks(chunks) {
      CleanSlice(chunks, 0, done);
      assert chunks[0..done] == chunks[..done];
      UpsertedKeyed(before, chunks[..done], embed);
      UpsertOutside(before, chunks[..done], changed, embed);
    }
  }

  lemma UpsertNothing(points: Points, embed: string -> Vector)
    ensures Upserted(points, [], embed) == points
  {
  }

  lemma KeyedSubset(points: Points, fewer: Points)
    requires Keyed(points) && fewer.Keys <= points.Keys && forall id :: id in fewer ==> fewer[id] == points[id]
    ensures Keyed(fewer)
  {
  }

  lemma OutsideTwice(points: Points, changed: set<string>)
    ensures Outside(Outside(points, changed), changed) == Outside(points, changed)
  {
  }

  method IncrementalUpdate(collection: Collection, chunks: seq<Chunk>, manifest: Manifest, forced: set<string>,
                           embed: string -> Vector, calls: nat)
    returns (outcome: Outcome, manifest': Manifest)
    modifies collection
    ensures var changed := ChangedPapers(manifest.digests, Digests(chunks), forced);
            && (outcome == Completed ==>
                  collection.points == Updated(old(collection.points), chunks, changed, embed)
                  && manifest'.digests == Digests(chunks))
            && (outcome != Completed ==> manifest' == manifest)
            && (outcome == Completed ==> forall c :: c in chunks && c.paperId in changed ==>
                  0 < |embed(c.denseText)| == manifest'.dimension)
            && (outcome == BadVectors ==> exists c, d ::
                  && c in chunks && c.paperId in changed && d in chunks && d.paperId in changed
                  && (|embed(c.denseText)| == 0 || |embed(c.denseText)| != |embed(d.denseText)|))
            && (Keyed(old(collection.points)) && CleanChunks(chunks) ==>
                  Keyed(collection.points)
                  && Outside(collection.points, changed) == Outside(old(collection.points), changed))
  {
    hide Outside, Upserted, Keyed, Of, CleanChunks, ChangedPapers, Digests;
    manifest' := manifest;
    var current := Digests(chunks);
    var changed := ChangedPapers(manifest.digests, current, forced);
    var deleted, left, stopped := DeletePaperPoints(collection, changed, calls);
    OutsideTwice(old(collection.points), changed);
    if Keyed(old(collection.points)) { KeyedSubset(old(collection.points), collection.points); }
    if stopped {
      return Stopped, manifest;
    }
    var changedChunks := Of(chunks, changed);
    var dimension := manifest.dimension;
    if CleanChunks(chunks) { OfClean(chunks, changed); }
    forall c ensures c in changedChunks <==> c in chunks && c.paperId in changed { OfMember(chunks, changed, c); }
    if changedChunks != [] {
      dimension := |embed(changedChunks[0].denseText)|;
      if !Uniform(changedChunks, embed, dimension) {
        assert changedChunks[0] in changedChunks;
        NotUniform(changedChunks, embed);
        return BadVectors, manifest;
      }
      stopped := UpsertBatches(collection, changedChunks, changed, embed, left);
      if stopped {
        return Stopped, manifest;
      }
      UniformIs(changedChunks, embed, dimension);
    } else {
      UpsertNothing(collection.points, embed);
    }
    return Completed, Manifest(current, dimension, |chunks|);
  }

  // ----- runs that follow runs that stopped -----

  /** One call of the incremental run and how many committed calls it lives for. */
  datatype Attempt = Attempt(chunks: seq<Chunk>, forced: set<string>, calls: nat)

  /** The papers the attempts treat, one manifest before them all. */
  function Treated(attempts: seq<Attempt>, digests: map<string, seq<Entry>>): set<string> {
    if attempts == [] then {}
    else
      var last := attempts[|attempts| - 1];
      Treated(attempts[..|attempts| - 1], digests) + ChangedPapers(digests, Digests(last.chunks), last.forced)
  }

  lemma OutsideMore(points: Points, other: Points, less: set<string>, more: set<string>)
    requires Outside(points, less) == Outside(other, less) && less <= more
    ensures Outside(points, more) == Outside(other, more)
  {
    assert Outside(points, more) == Outside(Outside(points, less), more);
    assert Outside(other, more) == Outside(Outside(other, less), more);
  }

  lemma TreatedSnoc(attempts: seq<Attempt>, a: Attempt, digests: map<string, seq<Entry>>)
    ensures Treated(attempts + [a], digests) == Treated(attempts, digests) + ChangedPapers(digests, Digests(a.chunks), a.forced)
  {
    assert (attempts + [a])[..|attempts|] == attempts;
  }

  lemma TreatedNone(digests: map<string, seq<Entry>>)
    ensures Treated([], digests) == {}
  {
  }

  /** Repeating one request treats no more papers than its last run does. */
  lemma {:induction false} SameRequestCovers(attempts: seq<Attempt>, digests: map<string, seq<Entry>>,
                                             chunks: seq<Chunk>, forced: set<string>)
    requires forall a :: a in attempts ==> a.chunks == chunks && a.forced == forced
    ensures Treated(attempts, digests) <= ChangedPapers(digests, Digests(chunks), forced)
  {
    hide ChangedPapers, Digests;
    if attempts != [] {
      var n := |attempts| - 1;
      assert attempts[n] in attempts && forall a :: a in attempts[..n] ==> a in attempts;
      SameRequestCovers(attempts[..n], digests, chunks, forced);
    }
  }

  /** Runs that stop anywhere before the manifest write, with whatever chunks and
      forced papers, followed by one that completes: if its own changed papers
      cover those of the runs before it, the collection is what a full rebuild
      gives; in particular when all of them are the same request. */
  method UpdateUntilCompleted(collection: Collection, attempts: seq<Attempt>, manifest: Manifest,
                              embed: string -> Vector, ghost prev: seq<Chunk>)
    returns (outcome: Outcome, manifest': Manifest, runs: nat)
    requires CleanChunks(prev) && forall a :: a in attempts ==> CleanChunks(a.chunks)
    requires Keyed(collection.points) && manifest.digests == Digests(prev)
    requires collection.points == Rebuilt(prev, embed)
    modifies collection
    ensures outcome == Completed ==>
              && 0 < runs <= |attempts|
              && var last := attempts[runs - 1];
                 var changed := ChangedPapers(manifest.digests, Digests(last.chunks), last.forced);
                 && manifest'.digests == Digests(last.chunks)
                 && (Treated(attempts[..runs], manifest.digests) <= changed
                     || (forall a :: a in attempts[..runs] ==> a.chunks == last.chunks && a.forced == last.forced) ==>
                       collection.points == Rebuilt(last.chunks, embed))
    ensures outcome != Completed ==> manifest' == manifest
  {
    hide Outside, Upserted, Keyed, Of, CleanChunks, ChangedPapers, Digests, Rebuilt, Updated, Treated;
    outcome, manifest', runs := Stopped, manifest, 0;
    TreatedNone(manifest.digests);
    assert attempts[..0] == [];
    while runs < |attempts|
      invariant runs <= |attempts| && manifest' == manifest && outcome != Completed
      invariant Keyed(collection.points)
      invariant var treated := Treated(attempts[..runs], manifest.digests);
                Outside(collection.points, treated) == Outside(Rebuilt(prev, embed), treated)
    {
      ghost var here, a := collection.points, attempts[runs];
      ghost var treated := Treated(attempts[..runs], manifest.digests);
      ghost var changed := ChangedPapers(manifest.digests, Digests(a.chunks), a.forced);
      assert attempts[..runs + 1] == attempts[..runs] + [a];
      TreatedSnoc(attempts[..runs], a, manifest.digests);
      var attempt := attempts[runs];
      outcome, manifest' := IncrementalUpdate(collection, attempt.chunks, manifest, attempt.forced, embed, attempt.calls);
      runs := runs + 1;
      if outcome == Completed {
        if forall x :: x in attempts[..runs] ==> x.chunks == a.chunks && x.forced == a.forced {
          SameRequestCovers(attempts[..runs], manifest.digests, a.chunks, a.forced);
        }
        if Treated(attempts[..runs], manifest.digests) <= changed {
          OutsideMore(here, Rebuilt(prev, embed), treated, changed);
          IncrementalRefinesRebuild(here, prev, a.chunks, a.forced, embed);
        }
        return;
      }
      OutsideMore(collection.points, here, changed, treated + changed);
      OutsideMore(here, Rebuilt(prev, embed), treated, treated + changed);
    }
  }

  /** A run stopped after its deletions, then a completed one: exactly when the
      second treats every deleted paper that still has chunks is nothing missing. */
  lemma StoppedDeleteIff(prev: seq<Chunk>, deleted: set<string>, chunks: seq<Chunk>, forced: set<string>,
                         embed: string -> Vector)
    requires CleanChunks(prev) && CleanChunks(chunks)
    ensures var changed := ChangedPapers(Digests(prev), Digests(chunks), forced);
            Updated(Outside(Rebuilt(prev, embed), deleted), chunks, changed, embed) == Rebuilt(chunks, embed) <==>
            deleted * PaperIds(chunks) <= changed
  {
    hide CleanChunks, Upserted, ChangedPapers, Digests, Rebuilt, Updated, Outside, Keyed;
    var changed := ChangedPapers(Digests(prev), Digests(chunks), forced);
    var stopped := Outside(Rebuilt(prev, embed), deleted);
    StoppedKeyed(prev, deleted, embed);
    UpdateRefinesRebuildIff(stopped, chunks, changed, embed);
    UnchangedPoints(prev, chunks, forced, embed);
    OutsideSwaps(Rebuilt(prev, embed), deleted, changed);
    OutsideSwaps(Rebuilt(chunks, embed), deleted, changed);
    NothingToLose(chunks, deleted, changed, embed);
  }

  lemma StoppedKeyed(prev: seq<Chunk>, deleted: set<string>, embed: string -> Vector)
    requires CleanChunks(prev)
    ensures Keyed(Outside(Rebuilt(prev, embed), deleted))
  {
    UpsertedKeyed(map[], prev, embed);
    KeyedSubset(Rebuilt(prev, embed), Outside(Rebuilt(prev, embed), deleted));
  }

  lemma OutsideSwaps(points: Points, a: set<string>, b: set<string>)
    ensures Outside(Outside(points, a), b) == Outside(Outside(points, b), a)
  {
  }

  lemma NothingToLose(chunks: seq<Chunk>, deleted: set<string>, changed: set<string>, embed: string -> Vector)
    requires CleanChunks(chunks)
    ensures var kept := Outside(Rebuilt(chunks, embed), changed);
            Outside(kept, deleted) == kept <==> deleted * PaperIds(chunks) <= changed
  {
    hide Rebuilt, Upserted;
    var kept := Outside(Rebuilt(chunks, embed), changed);
    forall id | id in kept ensures kept[id].paperId in PaperIds(chunks) {
      RebuiltAt(chunks, embed, id);
      var c :| c in chunks && Claims(c, id);
      PlainMember(chunks, c);
    }
    forall p | p in deleted * PaperIds(chunks) && p !in changed ensures Outside(kept, deleted) != kept {
      var c :| c in chunks && c.paperId == p;
      RebuiltAt(chunks, embed, IdOf(c));
      assert Claims(c, IdOf(c)) && IdOf(c) in kept && IdOf(c) !in Outside(kept, deleted);
    }
    if deleted * PaperIds(chunks) <= changed {
      forall id | id in kept ensures id in Outside(kept, deleted) {
        assert kept[id].paperId !in changed;
      }
    }
  }

  /** A stopped run that is not repeated with the same chunks can leave damage: the
      next run sees digests that agree and changes nothing. */
  lemma RevertAfterStopIsUnsafe(c: Chunk, d: Chunk, embed: string -> Vector)
    requires PlainPaper(c.paperId) && d.paperId == c.paperId
    ensures var changed := ChangedPapers(Digests([c]), Digests([d]), {c.paperId});
            var stoppedAfterDelete := Outside(Rebuilt([c], embed), changed);
            var next := ChangedPapers(Digests([c]), Digests([c]), {});
            next == {} && Updated(stoppedAfterDelete, [c], next, embed) != Rebuilt([c], embed)
  {
    var stoppedAfterDelete := Outside(Rebuilt([c], embed), ChangedPapers(Digests([c]), Digests([d]), {c.paperId}));
    assert CleanChunks([c]);
    RebuiltAt([c], embed, IdOf(c));
    assert c in [c] && Claims(c, IdOf(c));
    assert IdOf(c) !in stoppedAfterDelete;
    UpdatedAt(stoppedAfterDelete, [c], {}, embed, IdOf(c));
  }
}
