/** The dense vector collection: a full rebuild as a value, and what an update
    restricted to some papers does to stored points. */
module DenseIndex {
  import opened Wrappers
  import Ordering

  type Vector = seq<int>

  /** A chunk as the dense index reads it. */
  datatype Chunk = Chunk(paperId: string, chunkId: string, level: nat, contentHash: string, denseText: string)

  datatype Point = Point(paperId: string, denseText: string, vector: Vector)

  /** What a paper's digest covers of one chunk. */
  datatype Entry = Entry(chunkId: string, level: nat, contentHash: string, denseText: string)

  type Points = map<string, Point>

  /** The name hashed into the point id; the digest is taken as injective. */
  function PointId(paperId: string, chunkId: string): string {
    paperId + ":" + chunkId
  }

  function IdOf(c: Chunk): string {
    PointId(c.paperId, c.chunkId)
  }

  function PointOf(c: Chunk, embed: string -> Vector): Point {
    Point(c.paperId, c.denseText, embed(c.denseText))
  }

  predicate PlainPaper(paperId: string) {
    paperId != "" && ':' !in paperId
  }

  /** Paper ids without a colon make point ids unambiguous. */
  lemma {:induction false} PointIdInjective(p: string, c: string, p': string, c': string)
    requires ':' !in p && ':' !in p' && PointId(p, c) == PointId(p', c')
    ensures p == p' && c == c'
  {
    ColonInLonger(p, c, p', c');
    ColonInLonger(p', c', p, c);
    var id := PointId(p, c);
    assert p == id[..|p|] && p' == id[..|p'|];
    assert c == id[|p| + 1..] && c' == id[|p'| + 1..];
  }

  lemma ColonInLonger(p: string, c: string, p': string, c': string)
    requires PointId(p, c) == PointId(p', c')
    ensures |p| < |p'| ==> ':' in p'
  {
    if |p| < |p'| {
      assert PointId(p, c)[|p|] == ':' && PointId(p', c')[|p|] == p'[|p|];
    }
  }

  /** The part `x` sits between two colons: the longer paper id carries it behind
      the shorter one, and the chunk id of the shorter one starts with it. */
  ghost predicate Shifts(p: string, c: string, p': string, c': string, x: string) {
    p' == p + ":" + x && c == x + ":" + c'
  }

  /** Exactly which pairs share a point: the same pair, or a paper id that goes on
      behind a colon where the other pair's chunk id carries the same text. A colon
      in a paper id alone shares nothing. */
  lemma SharedPointIff(p: string, c: string, p': string, c': string)
    requires |p| <= |p'|
    ensures PointId(p, c) == PointId(p', c') <==> (p == p' && c == c') || exists x :: Shifts(p, c, p', c', x)
  {
    var id, id' := PointId(p, c), PointId(p', c');
    if id == id' && |p| < |p'| {
      var x := p'[|p| + 1..];
      assert p == id'[..|p|] == p'[..|p|] && id'[|p|] == ':' == p'[|p|];
      assert p' == p + ":" + x;
      assert c == id'[|p| + 1..] == x + ":" + c';
      assert Shifts(p, c, p', c', x);
    } else if id == id' {
      assert p == id[..|p|] && p' == id[..|p|] && c == id[|p| + 1..] && c' == id[|p| + 1..];
    }
    forall x | Shifts(p, c, p', c', x) ensures id == id' {
      assert id == p + ":" + (x + ":" + c') && id' == (p + ":" + x) + ":" + c';
    }
  }

  /** A pair of papers whose chunks do share a point. */
  lemma ColonCollision()
    ensures PointId("a:b", "c") == PointId("a", "b:c")
  {
  }

  predicate CleanChunks(chunks: seq<Chunk>) {
    && (forall i :: 0 <= i < |chunks| ==> PlainPaper(chunks[i].paperId))
    && (forall i, k :: 0 <= i < k < |chunks| ==>
          chunks[i].paperId != chunks[k].paperId || chunks[i].chunkId != chunks[k].chunkId)
  }

  // ----- rebuilding -----

  function Upserted(points: Points, chunks: seq<Chunk>, embed: string -> Vector): Points {
    if chunks == [] then points
    else
      var last := chunks[|chunks| - 1];
      Upserted(points, chunks[..|chunks| - 1], embed)[IdOf(last) := PointOf(last, embed)]
  }

  function Rebuilt(chunks: seq<Chunk>, embed: string -> Vector): Points {
    Upserted(map[], chunks, embed)
  }

  predicate Claims(c: Chunk, id: string) {
    IdOf(c) == id
  }

  lemma {:induction false} UpsertedHas(points: Points, chunks: seq<Chunk>, embed: string -> Vector, k: nat)
    requires CleanChunks(chunks) && k < |chunks|
    ensures IdOf(chunks[k]) in Upserted(points, chunks, embed)
    ensures Upserted(points, chunks, embed)[IdOf(chunks[k])] == PointOf(chunks[k], embed)
  {
    var n := |chunks| - 1;
    if k < n {
      UpsertedHas(points, chunks[..n], embed, k);
      if IdOf(chunks[k]) == IdOf(chunks[n]) {
        PointIdInjective(chunks[k].paperId, chunks[k].chunkId, chunks[n].paperId, chunks[n].chunkId);
      }
    }
  }

  lemma {:induction false} UpsertedOnly(points: Points, chunks: seq<Chunk>, embed: string -> Vector, id: string)
    ensures id in Upserted(points, chunks, embed) ==>
              || (id in points && Upserted(points, chunks, embed)[id] == points[id])
              || exists k :: 0 <= k < |chunks| && Claims(chunks[k], id)
                             && Upserted(points, chunks, embed)[id] == PointOf(chunks[k], embed)
    ensures id in points ==> id in Upserted(points, chunks, embed)
    ensures (forall k :: 0 <= k < |chunks| ==> !Claims(chunks[k], id)) && id in points ==>
              Upserted(points, chunks, embed)[id] == points[id]
  {
    if chunks != [] {
      var n := |chunks| - 1;
      UpsertedOnly(points, chunks[..n], embed, id);
      if Claims(chunks[n], id) {
      } else if id in Upserted(points, chunks[..n], embed) {
        assert Upserted(points, chunks, embed)[id] == Upserted(points, chunks[..n], embed)[id];
        if exists k :: 0 <= k < n && Claims(chunks[..n][k], id)
                       && Upserted(points, chunks[..n], embed)[id] == PointOf(chunks[..n][k], embed) {
          var k :| 0 <= k < n && Claims(chunks[..n][k], id)
                   && Upserted(points, chunks[..n], embed)[id] == PointOf(chunks[..n][k], embed);
          assert Claims(chunks[k], id);
        }
      }
    }
  }

  lemma {:induction false} UpsertedConcat(points: Points, a: seq<Chunk>, b: seq<Chunk>, embed: string -> Vector)
    ensures Upserted(points, a + b, embed) == Upserted(Upserted(points, a, embed), b, embed)
  {
    if b == [] {
      assert a + b == a;
    } else {
      UpsertedConcat(points, a, b[..|b| - 1], embed);
      assert (a + b)[..|a + b| - 1] == a + b[..|b| - 1];
    }
  }

  // ----- points by paper -----

  /** The stored points of papers outside `changed`. */
  function Outside(points: Points, changed: set<string>): Points {
    map id | id in points && points[id].paperId !in changed :: points[id]
  }

  function Of(chunks: seq<Chunk>, changed: set<string>): (r: seq<Chunk>)
    ensures forall i :: 0 <= i < |r| ==> r[i].paperId in changed
    ensures |r| <= |chunks|
  {
    if chunks == [] then []
    else
      var last := chunks[|chunks| - 1];
      Of(chunks[..|chunks| - 1], changed) + if last.paperId in changed then [last] else []
  }

  /** Delete the changed papers' points, then write their chunks. */
  function Updated(points: Points, chunks: seq<Chunk>, changed: set<string>, embed: string -> Vector): Points {
    Upserted(Outside(points, changed), Of(chunks, changed), embed)
  }

  lemma {:induction false} OfMember(chunks: seq<Chunk>, changed: set<string>, c: Chunk)
    ensures c in Of(chunks, changed) <==> c in chunks && c.paperId in changed
  {
    if chunks != [] {
      var init, last := chunks[..|chunks| - 1], chunks[|chunks| - 1];
      OfMember(init, changed, c);
      assert c in chunks <==> c in init || c == last;
    }
  }

  lemma {:induction false} OfClean(chunks: seq<Chunk>, changed: set<string>)
    requires CleanChunks(chunks)
    ensures CleanChunks(Of(chunks, changed))
  {
    if chunks != [] {
      var init, last := chunks[..|chunks| - 1], chunks[|chunks| - 1];
      OfClean(init, changed);
      var r := Of(init, changed);
      forall i | 0 <= i < |r|
        ensures PlainPaper(r[i].paperId) && (r[i].paperId != last.paperId || r[i].chunkId != last.chunkId)
      {
        OfMember(init, changed, r[i]);
        var k :| 0 <= k < |init| && init[k] == r[i];
        assert chunks[k] == r[i];
      }
    }
  }

  /** A rebuilt point is the point of some chunk of its paper, and conversely. */
  lemma RebuiltAt(chunks: seq<Chunk>, embed: string -> Vector, id: string)
    requires CleanChunks(chunks)
    ensures id in Rebuilt(chunks, embed) <==> exists c :: c in chunks && Claims(c, id)
    ensures forall c :: c in chunks && Claims(c, id) ==>
              id in Rebuilt(chunks, embed) && Rebuilt(chunks, embed)[id] == PointOf(c, embed)
  {
    UpsertedOnly(map[], chunks, embed, id);
    if id in Rebuilt(chunks, embed) {
      var k :| 0 <= k < |chunks| && Claims(chunks[k], id);
      assert chunks[k] in chunks;
    }
    forall c | c in chunks && Claims(c, id)
      ensures id in Rebuilt(chunks, embed) && Rebuilt(chunks, embed)[id] == PointOf(c, embed)
    {
      var k :| 0 <= k < |chunks| && chunks[k] == c;
      UpsertedHas(map[], chunks, embed, k);
    }
  }

  /** A rebuild holds one point for every chunk, under the name made of its paper and
      chunk ids, with its paper, its text and the vector of that text; and no other. */
  lemma RebuiltHolds(chunks: seq<Chunk>, embed: string -> Vector)
    requires CleanChunks(chunks)
    ensures forall c :: c in chunks ==>
              var id := c.paperId + ":" + c.chunkId;
              && id in Rebuilt(chunks, embed) && Rebuilt(chunks, embed)[id].paperId == c.paperId
              && Rebuilt(chunks, embed)[id].denseText == c.denseText
              && Rebuilt(chunks, embed)[id].vector == embed(c.denseText)
    ensures forall id :: id in Rebuilt(chunks, embed) ==> exists c :: c in chunks && id == c.paperId + ":" + c.chunkId
  {
    hide Rebuilt, CleanChunks;
    forall c | c in chunks
      ensures var id := c.paperId + ":" + c.chunkId;
              id in Rebuilt(chunks, embed) && Rebuilt(chunks, embed)[id] == Point(c.paperId, c.denseText, embed(c.denseText))
    {
      RebuiltAt(chunks, embed, IdOf(c));
      assert Claims(c, IdOf(c));
    }
    forall id | id in Rebuilt(chunks, embed) ensures exists c :: c in chunks && id == c.paperId + ":" + c.chunkId {
      RebuiltAt(chunks, embed, id);
      var c :| c in chunks && Claims(c, id);
    }
  }

  /** Writing a clean part over points that do not meet it. */
  lemma UpdatedAt(points: Points, chunks: seq<Chunk>, changed: set<string>, embed: string -> Vector, id: string)
    requires CleanChunks(chunks)
    ensures forall c :: c in chunks && c.paperId in changed && Claims(c, id) ==>
              id in Updated(points, chunks, changed, embed)
              && Updated(points, chunks, changed, embed)[id] == PointOf(c, embed)
    ensures (forall c :: c in chunks && Claims(c, id) ==> c.paperId !in changed) ==>
              (id in Updated(points, chunks, changed, embed) <==> id in Outside(points, changed))
              && (id in Outside(points, changed) ==>
                    Updated(points, chunks, changed, embed)[id] == Outside(points, changed)[id])
  {
    var part := Of(chunks, changed);
    OfClean(chunks, changed);
    UpsertedOnly(Outside(points, changed), part, embed, id);
    forall c | c in chunks && c.paperId in changed && Claims(c, id)
      ensures id in Updated(points, chunks, changed, embed)
              && Updated(points, chunks, changed, embed)[id] == PointOf(c, embed)
    {
      OfMember(chunks, changed, c);
      var k :| 0 <= k < |part| && part[k] == c;
      UpsertedHas(Outside(points, changed), part, embed, k);
    }
    if forall c :: c in chunks && Claims(c, id) ==> c.paperId !in changed {
      forall k | 0 <= k < |part| ensures !Claims(part[k], id) {
        OfMember(chunks, changed, part[k]);
        assert part[k] in part;
      }
    }
  }

  /** Every stored point is filed under its own paper's name. */
  predicate Keyed(points: Points) {
    forall id :: id in points ==> PlainPaper(points[id].paperId) && points[id].paperId + ":" <= id
  }

  lemma ClaimedByOwner(points: Points, c: Chunk, id: string)
    requires Keyed(points) && id in points && Claims(c, id) && PlainPaper(c.paperId)
    ensures points[id].paperId == c.paperId
  {
    var p := points[id].paperId;
    assert id == PointId(p, id[|p| + 1..]);
    PointIdInjective(p, id[|p| + 1..], c.paperId, c.chunkId);
  }

  lemma {:induction false} UpsertedKeyed(points: Points, chunks: seq<Chunk>, embed: string -> Vector)
    requires Keyed(points) && CleanChunks(chunks)
    ensures Keyed(Upserted(points, chunks, embed))
  {
    if chunks != [] {
      UpsertedKeyed(points, chunks[..|chunks| - 1], embed);
    }
  }

  /** All chunks claiming one id are of one paper. */
  lemma OneClaimant(chunks: seq<Chunk>, c: Chunk, id: string)
    requires CleanChunks(chunks) && c in chunks && Claims(c, id)
    ensures forall d :: d in chunks && Claims(d, id) ==> d.paperId == c.paperId
  {
    forall d | d in chunks && Claims(d, id) ensures d.paperId == c.paperId {
      PointIdInjective(c.paperId, c.chunkId, d.paperId, d.chunkId);
    }
  }

  /** One id: the update agrees with the rebuild there exactly when the points of
      untouched papers do. */
  lemma UpdateAgreesAt(points: Points, chunks: seq<Chunk>, changed: set<string>, embed: string -> Vector, id: string)
    requires CleanChunks(chunks) && Keyed(points)
    ensures var after, full := Updated(points, chunks, changed, embed), Rebuilt(chunks, embed);
            var kept, right := Outside(points, changed), Outside(full, changed);
            ((id in after <==> id in full) && (id in full ==> after[id] == full[id])) <==>
            ((id in kept <==> id in right) && (id in right ==> kept[id] == right[id]))
  {
    hide Upserted, Of, CleanChunks;
    RebuiltAt(chunks, embed, id);
    UpdatedAt(points, chunks, changed, embed, id);
    if exists c :: c in chunks && Claims(c, id) {
      var c :| c in chunks && Claims(c, id);
      OneClaimant(chunks, c, id);
      PlainMember(chunks, c);
      if id in points { ClaimedByOwner(points, c, id); }
    }
  }

  lemma PlainMember(chunks: seq<Chunk>, c: Chunk)
    requires CleanChunks(chunks) && c in chunks
    ensures PlainPaper(c.paperId)
  {
  }

  /** Exactly when the untouched papers' points are already right does an update
      give the collection a rebuild would give. */
  lemma UpdateRefinesRebuildIff(points: Points, chunks: seq<Chunk>, changed: set<string>, embed: string -> Vector)
    requires CleanChunks(chunks) && Keyed(points)
    ensures Updated(points, chunks, changed, embed) == Rebuilt(chunks, embed) <==>
            Outside(points, changed) == Outside(Rebuilt(chunks, embed), changed)
  {
    hide Upserted, Of, CleanChunks, Outside, Updated, Rebuilt, Keyed;
    forall id: string {
      UpdateAgreesAt(points, chunks, changed, embed, id);
    }
  }

  // ----- digests -----

  function EntryOf(c: Chunk): Entry {
    Entry(c.chunkId, c.level, c.contentHash, c.denseText)
  }

  predicate Earlier(a: Entry, b: Entry) {
    Ordering.StringLess(a.chunkId, b.chunkId)
  }

  /** The digest of one paper: its entries sorted by chunk id, taken as injective. */
  function DigestOf(chunks: seq<Chunk>, paperId: string): seq<Entry> {
    if chunks == [] then []
    else
      var init, last := DigestOf(chunks[..|chunks| - 1], paperId), chunks[|chunks| - 1];
      if last.paperId == paperId then Ordering.Insert(init, Earlier, EntryOf(last)) else init
  }

  function Digests(chunks: seq<Chunk>): map<string, seq<Entry>> {
    map p | p in PaperIds(chunks) :: DigestOf(chunks, p)
  }

  function PaperIds(chunks: seq<Chunk>): set<string> {
    set c | c in chunks && c.paperId != "" :: c.paperId
  }

  lemma InsertMember(entries: seq<Entry>, e: Entry, x: Entry)
    ensures x in Ordering.Insert(entries, Earlier, e) <==> x in entries || x == e
  {
    Ordering.InsertKeeps(entries, Earlier, e);
    assert x in Ordering.Insert(entries, Earlier, e) <==> x in multiset(Ordering.Insert(entries, Earlier, e));
  }

  lemma {:induction false} DigestMember(chunks: seq<Chunk>, paperId: string, x: Entry)
    ensures x in DigestOf(chunks, paperId) <==> exists c :: c in chunks && c.paperId == paperId && EntryOf(c) == x
  {
    if chunks != [] {
      var init, last := chunks[..|chunks| - 1], chunks[|chunks| - 1];
      DigestMember(init, paperId, x);
      assert forall c :: c in chunks <==> c in init || c == last;
      if last.paperId == paperId {
        InsertMember(DigestOf(init, paperId), EntryOf(last), x);
      }
    }
  }

  lemma EntryIsChunk(c: Chunk, d: Chunk)
    requires c.paperId == d.paperId && EntryOf(c) == EntryOf(d)
    ensures c == d
  {
  }

  function Lookup<V>(m: map<string, V>, key: string): Option<V> {
    if key in m then Some(m[key]) else None
  }

  /** The papers an incremental run must treat: digest differs, or forced. */
  function ChangedPapers(previous: map<string, seq<Entry>>, current: map<string, seq<Entry>>,
                         forced: set<string>): set<string> {
    set p | p in previous.Keys + current.Keys + forced
            && (Lookup(previous, p) != Lookup(current, p) || p in forced)
  }

  lemma {:induction false} SameDigestSameChunks(prev: seq<Chunk>, chunks: seq<Chunk>, p: string, c: Chunk)
    requires p != "" && Lookup(Digests(prev), p) == Lookup(Digests(chunks), p)
    requires c in prev && c.paperId == p
    ensures c in chunks
  {
    assert p in PaperIds(prev);
    DigestMember(prev, p, EntryOf(c));
    DigestMember(chunks, p, EntryOf(c));
    var d :| d in chunks && d.paperId == p && EntryOf(d) == EntryOf(c);
    EntryIsChunk(c, d);
  }

  // ----- a digest does not depend on the order of the chunks -----

  ghost predicate Ascending(xs: seq<Entry>) {
    forall i, k :: 0 <= i < k < |xs| ==> Earlier(xs[i], xs[k])
  }

  lemma {:induction false} InsertAscends(xs: seq<Entry>, e: Entry)
    requires Ascending(xs) && forall x :: x in xs ==> x.chunkId != e.chunkId
    ensures Ascending(Ordering.Insert(xs, Earlier, e))
  {
    hide Earlier;
    if xs != [] {
      var front, last := xs[..|xs| - 1], xs[|xs| - 1];
      EarlierTotal(last, e);
      if Earlier(e, last) {
        InsertAscends(front, e);
        forall x | x in Ordering.Insert(front, Earlier, e) ensures Earlier(x, last) {
          InsertMember(front, e, x);
        }
      } else {
        forall i | 0 <= i < |xs| ensures Earlier(xs[i], e) {
          if i < |xs| - 1 { EarlierTransitive(xs[i], last, e); }
        }
      }
    }
  }

  lemma EarlierTotal(a: Entry, b: Entry)
    ensures !(Earlier(a, b) && Earlier(b, a))
    ensures a.chunkId != b.chunkId ==> Earlier(a, b) || Earlier(b, a)
  {
    Ordering.StringLessTotal(a.chunkId, b.chunkId);
  }

  lemma EarlierTransitive(a: Entry, b: Entry, c: Entry)
    requires Earlier(a, b) && Earlier(b, c)
    ensures Earlier(a, c)
  {
    Ordering.StringLessTransitive(a.chunkId, b.chunkId, c.chunkId);
  }

  lemma {:induction false} DigestAscends(chunks: seq<Chunk>, p: string)
    requires CleanChunks(chunks)
    ensures Ascending(DigestOf(chunks, p))
  {
    hide Earlier;
    if chunks != [] {
      var init, last := chunks[..|chunks| - 1], chunks[|chunks| - 1];
      DigestAscends(init, p);
      if last.paperId == p {
        forall x | x in DigestOf(init, p) ensures x.chunkId != last.chunkId {
          DigestMember(init, p, x);
          var c :| c in init && c.paperId == p && EntryOf(c) == x;
          var k :| 0 <= k < |init| && init[k] == c;
          assert chunks[k].chunkId != chunks[|chunks| - 1].chunkId;
        }
        InsertAscends(DigestOf(init, p), EntryOf(last));
      }
    }
  }

  /** Ascending lists of the same entries are equal. */
  lemma {:induction false} AscendingIsUnique(xs: seq<Entry>, ys: seq<Entry>)
    requires Ascending(xs) && Ascending(ys) && forall x :: x in xs <==> x in ys
    ensures xs == ys
  {
    hide Earlier;
    assert ys == [] || ys[0] in xs;
    if xs != [] {
      assert xs[0] in xs;
      var m, n := |xs| - 1, |ys| - 1;
      LastsAgree(xs, ys);
      forall x ensures x in xs[..m] <==> x in ys[..n] {
        NotLast(xs, x);
        NotLast(ys, x);
      }
      AscendingIsUnique(xs[..m], ys[..n]);
      assert xs == xs[..m] + [xs[m]] && ys == ys[..n] + [ys[n]];
    }
  }

  lemma LastsAgree(xs: seq<Entry>, ys: seq<Entry>)
    requires xs != [] && ys != [] && Ascending(xs) && Ascending(ys) && forall x :: x in xs <==> x in ys
    ensures xs[|xs| - 1] == ys[|ys| - 1]
  {
    hide Earlier;
    var a, b := xs[|xs| - 1], ys[|ys| - 1];
    assert a in xs && b in ys;
    EarlierTotal(a, b);
    var i :| 0 <= i < |xs| && xs[i] == b;
    var k :| 0 <= k < |ys| && ys[k] == a;
  }

  lemma NotLast(xs: seq<Entry>, x: Entry)
    requires xs != [] && Ascending(xs)
    ensures x in xs[..|xs| - 1] <==> x in xs && x != xs[|xs| - 1]
  {
    hide Earlier;
    var n := |xs| - 1;
    assert xs == xs[..n] + [xs[n]];
    EarlierTotal(xs[n], xs[n]);
  }

  /** Exactly the papers to treat: those forced and those some chunk of which was
      added, removed or changed; the order of the chunks does not matter. */
  lemma ChangedIff(prev: seq<Chunk>, chunks: seq<Chunk>, forced: set<string>, p: string)
    requires CleanChunks(prev) && CleanChunks(chunks)
    ensures p in ChangedPapers(Digests(prev), Digests(chunks), forced) <==>
              p in forced || exists c: Chunk :: c.paperId == p && (c in prev <==> c !in chunks)
  {
    hide CleanChunks, Digests, DigestOf;
    if forall c: Chunk | c.paperId == p :: c in prev <==> c in chunks {
      SameChunksSameDigest(prev, chunks, p);
    } else {
      var c: Chunk :| c.paperId == p && (c in prev <==> c !in chunks);
      if c in prev { PlainMember(prev, c); } else { PlainMember(chunks, c); }
      if Lookup(Digests(prev), p) == Lookup(Digests(chunks), p) {
        if c in prev { SameDigestSameChunks(prev, chunks, p, c); } else { SameDigestSameChunks(chunks, prev, p, c); }
      }
      InChanged(prev, chunks, forced, p);
    }
  }

  lemma InChanged(prev: seq<Chunk>, chunks: seq<Chunk>, forced: set<string>, p: string)
    ensures p in ChangedPapers(Digests(prev), Digests(chunks), forced) <==>
              p in forced || Lookup(Digests(prev), p) != Lookup(Digests(chunks), p)
  {
    hide Digests;
  }

  lemma SameChunksSameDigest(prev: seq<Chunk>, chunks: seq<Chunk>, p: string)
    requires CleanChunks(prev) && CleanChunks(chunks)
    requires forall c: Chunk :: c.paperId == p ==> (c in prev <==> c in chunks)
    ensures Lookup(Digests(prev), p) == Lookup(Digests(chunks), p)
  {
    hide CleanChunks, DigestOf, EntryOf, Earlier;
    DigestAscends(prev, p);
    DigestAscends(chunks, p);
    forall x ensures x in DigestOf(prev, p) <==> x in DigestOf(chunks, p) {
      DigestMember(prev, p, x);
      DigestMember(chunks, p, x);
    }
    AscendingIsUnique(DigestOf(prev, p), DigestOf(chunks, p));
  }

  /** Papers whose digests agree have the same points in both rebuilds. */
  lemma UnchangedPoints(prev: seq<Chunk>, chunks: seq<Chunk>, forced: set<string>, embed: string -> Vector)
    requires CleanChunks(prev) && CleanChunks(chunks)
    ensures var changed := ChangedPapers(Digests(prev), Digests(chunks), forced);
            Outside(Rebuilt(prev, embed), changed) == Outside(Rebuilt(chunks, embed), changed)
  {
    hide Upserted, CleanChunks, Rebuilt, IdOf;
    var changed := ChangedPapers(Digests(prev), Digests(chunks), forced);
    forall id: string
      ensures id in Outside(Rebuilt(prev, embed), changed) ==>
                id in Outside(Rebuilt(chunks, embed), changed)
                && Outside(Rebuilt(chunks, embed), changed)[id] == Outside(Rebuilt(prev, embed), changed)[id]
      ensures id in Outside(Rebuilt(chunks, embed), changed) ==> id in Outside(Rebuilt(prev, embed), changed)
    {
      RebuiltAt(prev, embed, id);
      RebuiltAt(chunks, embed, id);
      if id in Outside(Rebuilt(prev, embed), changed) {
        var c :| c in prev && Claims(c, id);
        PlainMember(prev, c);
        NotChanged(prev, chunks, forced, c.paperId);
        SameDigestSameChunks(prev, chunks, c.paperId, c);
      }
      if id in Outside(Rebuilt(chunks, embed), changed) {
        var c :| c in chunks && Claims(c, id);
        PlainMember(chunks, c);
        NotChanged(prev, chunks, forced, c.paperId);
        SameDigestSameChunks(chunks, prev, c.paperId, c);
      }
    }
  }

  lemma NotChanged(prev: seq<Chunk>, chunks: seq<Chunk>, forced: set<string>, p: string)
    ensures p !in ChangedPapers(Digests(prev), Digests(chunks), forced) ==>
              Lookup(Digests(prev), p) == Lookup(Digests(chunks), p)
  {
  }

  /** If outside the changed papers the collection holds what the manifest's chunks
      were rebuilt to, whatever it holds for the changed papers, an incremental
      run gives the full rebuild of the new chunks. */
  lemma IncrementalRefinesRebuild(points: Points, prev: seq<Chunk>, chunks: seq<Chunk>, forced: set<string>,
                                  embed: string -> Vector)
    requires CleanChunks(prev) && CleanChunks(chunks) && Keyed(points)
    requires var changed := ChangedPapers(Digests(prev), Digests(chunks), forced);
             Outside(points, changed) == Outside(Rebuilt(prev, embed), changed)
    ensures var changed := ChangedPapers(Digests(prev), Digests(chunks), forced);
            Updated(points, chunks, changed, embed) == Rebuilt(chunks, embed)
  {
    hide Upserted, CleanChunks, Rebuilt, ChangedPapers, Digests, Updated, Outside, Keyed;
    var changed := ChangedPapers(Digests(prev), Digests(chunks), forced);
    UnchangedPoints(prev, chunks, forced, embed);
    UpdateRefinesRebuildIff(points, chunks, changed, embed);
  }
}
