/** One build: chunks are looked up for reuse or written to the segment of their class. */
module Builds {
  import opened Basics
  import opened Wire
  import opened Records
  import opened Tables
  import opened BlockStore
  import opened Sources
  import opened SegmentStore
  import opened Placement
  import opened Rotation

  const COMPRESSION_SAVINGS: nat := 64

  /** What one file contributes to the source fingerprint. */
  datatype FileItem = FileItem(path: Bytes, len: nat, layout: Layout, access: Access, availability: Availability,
                               compression: Compression, fixedBlockLen: nat, ids: seq<Bytes>, blockCount: nat)

  /** The part of a build that reuse changes. */
  datatype ReuseState = ReuseState(current: CurrentReuse, used: map<Bytes, SegmentRecord>, pending: seq<PendingBlock>,
                                   reused: nat)

  /** The part of a build that only new blocks change. */
  datatype Output = Output(data: map<Bytes, Bytes>, records: seq<Option<SegmentRecord>>, active: seq<ActiveSegment>,
                           manifests: seq<Manifest>, kinds: seq<SegmentClass>, newBlocks: nat, newSegmentBytes: nat,
                           sealedFor: set<ChunkKey>)

  /** What a block is sealed for: a chunk by its name, in its class, under a compression policy. */
  type ChunkKey = (Bytes, SegmentClass, Compression)

  datatype Lookup = Lookup(index: ReuseIndex, segments: seq<SegmentRecord>, kind: SegmentClass,
                           compression: Compression)

  function SaturatedNext(n: nat): nat {
    Min(n + 1, U32_LIMIT - 1)
  }

  /** Reuses a block of this build in the same class, else one of the previous release with the same
  availability; `None` when neither has the name, the length and an acceptable codec. */
  function ReuseOne(l: Lookup, s: ReuseState, chunk: CachedChunk): Option<ReuseState> {
    var key := (chunk.chunkId, l.kind);
    var past := (chunk.chunkId, l.kind.availability);
    if key in s.current && s.current[key].reference.plainLen == chunk.plainLen
       && l.compression.Accepts(s.current[key].reference.codec)
    then
      var p := s.current[key];
      Some(s.(pending := s.pending + [p.(reference := p.reference.(logicalOffset := chunk.logicalOffset))],
              reused := SaturatedNext(s.reused)))
    else if past in l.index && l.index[past].block.plainLen == chunk.plainLen
            && l.compression.Accepts(l.index[past].block.codec)
            && l.index[past].segmentOrdinal < |l.segments|
    then
      var segment := l.segments[l.index[past].segmentOrdinal];
      var p := PendingBlock(Existing(segment.id), l.index[past].block.(logicalOffset := chunk.logicalOffset));
      Some(ReuseState(s.current[key := p], if segment.id in s.used then s.used else s.used[segment.id := segment],
                      s.pending + [p], SaturatedNext(s.reused)))
    else None
  }

  /** When a chunk is reused, said of the blocks there are: one of this build in the chunk's class, or one of the
  previous release in its availability, of its name and length, and raw unless the policy allows compressed blocks. */
  lemma ReuseOneExact(l: Lookup, s: ReuseState, chunk: CachedChunk)
    ensures ReuseOne(l, s, chunk).Some? <==> ServedNow(l, s, chunk) || PastOffers(l, chunk)
    ensures ServedNow(l, s, chunk)
            <==> var now := (chunk.chunkId, l.kind);
                 now in s.current && s.current[now].reference.plainLen == chunk.plainLen
                 && (l.compression.Auto? || s.current[now].reference.codec.Raw?)
    ensures PastOffers(l, chunk)
            <==> var past := (chunk.chunkId, l.kind.availability);
                 && past in l.index && l.index[past].block.plainLen == chunk.plainLen
                 && (l.compression.Auto? || l.index[past].block.codec.Raw?)
                 && l.index[past].segmentOrdinal < |l.segments|
    ensures ReuseOne(l, s, chunk).Some? ==>
              var next := ReuseOne(l, s, chunk).value;
              && next.reused == Min(s.reused + 1, U32_LIMIT - 1) && |next.pending| == |s.pending| + 1
              && next.pending[..|s.pending|] == s.pending
              && if ServedNow(l, s, chunk)
                 then next.used == s.used
                      && next.pending[|s.pending|].locator == s.current[(chunk.chunkId, l.kind)].locator
                 else var id := l.segments[l.index[(chunk.chunkId, l.kind.availability)].segmentOrdinal].id;
                      id in next.used && next.pending[|s.pending|].locator == Existing(id)
  {
  }

  /** This build has a block for the chunk in its class. */
  predicate ServedNow(l: Lookup, s: ReuseState, chunk: CachedChunk) {
    var now := (chunk.chunkId, l.kind);
    && now in s.current && s.current[now].reference.plainLen == chunk.plainLen
    && l.compression.Accepts(s.current[now].reference.codec)
  }

  /** The previous release has a block for the chunk. */
  predicate PastOffers(l: Lookup, chunk: CachedChunk) {
    var past := (chunk.chunkId, l.kind.availability);
    && past in l.index && l.index[past].block.plainLen == chunk.plainLen
    && l.compression.Accepts(l.index[past].block.codec) && l.index[past].segmentOrdinal < |l.segments|
  }

  /** The chunks for which the previous release has no block. */
  function MissingKeys(l: Lookup, chunks: seq<CachedChunk>): set<ChunkKey> {
    set j | 0 <= j < |chunks| && !PastOffers(l, chunks[j]) :: (chunks[j].chunkId, l.kind, l.compression)
  }

  /** Reusing every chunk of a list in turn. */
  function Replay(l: Lookup, s: ReuseState, chunks: seq<CachedChunk>): Option<ReuseState> {
    if chunks == [] then Some(s)
    else
      match Replay(l, s, chunks[..|chunks| - 1])
      case None => None
      case Some(next) => ReuseOne(l, next, chunks[|chunks| - 1])
  }

  lemma {:induction false} ReplayPrefix(l: Lookup, s: ReuseState, chunks: seq<CachedChunk>, k: nat)
    requires k < |chunks| && Replay(l, s, chunks).Some?
    ensures Replay(l, s, chunks[..k]).Some?
    ensures Replay(l, s, chunks[..k + 1]).Some?
    ensures ReuseOne(l, Replay(l, s, chunks[..k]).value, chunks[k]) == Replay(l, s, chunks[..k + 1])
    decreases |chunks|
  {
    var n := |chunks| - 1;
    if k < n {
      ReplayPrefix(l, s, chunks[..n], k);
      assert chunks[..n][..k] == chunks[..k] && chunks[..n][..k + 1] == chunks[..k + 1];
    } else {
      assert chunks[..k + 1] == chunks;
    }
  }

  /** The blocks added for the first chunks of a file, at their offsets and in segments of the file's availability. */
  ghost predicate Added(before: seq<PendingBlock>, after: seq<PendingBlock>, chunks: seq<Bytes>,
                        availability: Availability, w: World) {
    && |after| == |before| + |chunks| && before <= after
    && (forall j :: 0 <= j < |chunks| ==> AddedAt(after, |before|, chunks, j, availability, w))
  }

  ghost predicate AddedAt(after: seq<PendingBlock>, first: nat, chunks: seq<Bytes>, j: nat, availability: Availability,
                          w: World)
    requires j < |chunks| && first + |chunks| <= |after|
  {
    after[first + j].reference.logicalOffset == OffsetOf(chunks, j) && Home(after[first + j], w) == availability
  }

  lemma AddedNone(pending: seq<PendingBlock>, availability: Availability, w: World)
    ensures Added(pending, pending, [], availability, w)
  {
  }

  lemma AddedOne(before: seq<PendingBlock>, after: seq<PendingBlock>, p: PendingBlock, chunks: seq<Bytes>, k: nat,
                 availability: Availability, w: World, v: World)
    requires k < |chunks| && Added(before, after, chunks[..k], availability, w) && Grows(w, v)
    requires forall n :: 0 <= n < |after| ==> Placed(after[n], w)
    requires p.reference.logicalOffset == OffsetOf(chunks, k) && Home(p, v) == availability
    ensures Added(before, after + [p], chunks[..k + 1], availability, v)
  {
    var more, taken := after + [p], chunks[..k + 1];
    forall j | 0 <= j < |taken|
      ensures AddedAt(more, |before|, taken, j, availability, v)
    {
      assert taken[..j] == chunks[..j];
      if j < k {
        assert chunks[..k][..j] == chunks[..j];
        assert AddedAt(after, |before|, chunks[..k], j, availability, w);
        var q := after[|before| + j];
        assert more[|before| + j] == q;
        GivesStays(q, PlainOf(q, w), Home(q, w), w, v);
      } else {
        assert more[|before| + j] == p;
      }
    }
  }

  // ------------------------------------------------------------------- what reuse keeps

  function WorldOf(library: map<Bytes, Manifest>, s: ReuseState, o: Output): World {
    World(library, s.used, o.manifests, o.kinds)
  }

  /** The part of the invariant that is about blocks. */
  ghost predicate ReuseHolds(t: Tool, l: Lookup, s: ReuseState, ids: seq<Bytes>, plains: seq<Bytes>, w: World) {
    && s.used == w.used && UsedOk(s.used, l.index, l.segments)
    && BlocksOk(t, s.pending, ids, plains, w) && CurrentOk(t, s.current, w) && AllReferenced(s.pending, w)
  }

  lemma PushBlock(t: Tool, pending: seq<PendingBlock>, ids: seq<Bytes>, plains: seq<Bytes>, w: World, p: PendingBlock,
                  plain: Bytes)
    requires BlocksOk(t, pending, ids, plains, w) && Gives(p, plain, Home(p, w), w)
    ensures BlocksOk(t, pending + [p], ids + [t.hash(plain)], plains + [plain], w)
  {
    hide Gives, Home;
    forall n | 0 <= n < |pending| + 1
      ensures Gives((pending + [p])[n], (plains + [plain])[n], Home((pending + [p])[n], w), w)
      ensures (ids + [t.hash(plain)])[n] == t.hash((plains + [plain])[n])
    {
      if n == |pending| {
        assert (pending + [p])[n] == p && (plains + [plain])[n] == plain;
      }
    }
  }

  lemma PushReferenced(pending: seq<PendingBlock>, w: World, p: PendingBlock)
    requires AllReferenced(pending, w)
    ensures AllReferenced(pending + [p], w)
  {
    hide UsesSegment, UsesBlock;
    UsesMore(pending, p);
  }

  lemma SameHash(t: Tool, a: Bytes, b: Bytes)
    requires ToolSound(t) && t.hash(a) == t.hash(b)
    ensures a == b
  {
  }

  /** A block of this build reused: the same plaintext again, in the same class. */
  lemma ReusedFromCurrent(t: Tool, l: Lookup, s: ReuseState, chunk: CachedChunk, plain: Bytes, ids: seq<Bytes>,
                          plains: seq<Bytes>, w: World)
    requires ToolSound(t) && ReuseHolds(t, l, s, ids, plains, w) && t.hash(plain) == chunk.chunkId
    requires (chunk.chunkId, l.kind) in s.current
    ensures var found := s.current[(chunk.chunkId, l.kind)];
            var p := found.(reference := found.reference.(logicalOffset := chunk.logicalOffset));
            && ReuseHolds(t, l, s.(pending := s.pending + [p]), ids + [chunk.chunkId], plains + [plain], w)
            && Home(p, w) == l.kind.availability
  {
    hide ToolSound, Gives, Home, PlainOf, BlocksOk, AllReferenced, Frugal, SealedOnce, NamedByContent;
    var key := (chunk.chunkId, l.kind);
    var found := s.current[key];
    SameHash(t, PlainOf(found, w), plain);
    MovedGives(found, chunk.logicalOffset, plain, l.kind.availability, w);
    var p := found.(reference := found.reference.(logicalOffset := chunk.logicalOffset));
    GivesHome(p, plain, l.kind.availability, w);
    PushBlock(t, s.pending, ids, plains, w, p, plain);
    PushReferenced(s.pending, w, p);
  }

  lemma GivesHome(p: PendingBlock, plain: Bytes, availability: Availability, w: World)
    requires Gives(p, plain, availability, w)
    ensures Home(p, w) == availability
  {
  }

  function WithSegment(used: map<Bytes, SegmentRecord>, s: SegmentRecord): map<Bytes, SegmentRecord> {
    if s.id in used then used else used[s.id := s]
  }

  /** Using one more earlier segment only adds to what locators mean. */
  lemma SegmentUsed(w: World, index: ReuseIndex, segments: seq<SegmentRecord>, s: SegmentRecord)
    requires UsedOk(w.used, index, segments) && s in segments && Offered(s, index, segments)
    ensures UsedOk(WithSegment(w.used, s), index, segments) && Grows(w, w.(used := WithSegment(w.used, s)))
  {
  }

  /** Segments of one release are told apart by name. */
  ghost predicate NamesDistinct(segments: seq<SegmentRecord>) {
    forall i, j :: 0 <= i < j < |segments| ==> segments[i].id != segments[j].id
  }

  lemma SameName(segments: seq<SegmentRecord>, a: SegmentRecord, b: SegmentRecord)
    requires NamesDistinct(segments) && a in segments && b in segments && a.id == b.id
    ensures a == b
  {
  }

  /** A block of the previous release reused: the plaintext it is named for, where it always was. */
  lemma ReusedFromPast(t: Tool, l: Lookup, s: ReuseState, chunk: CachedChunk, plain: Bytes, ids: seq<Bytes>,
                       plains: seq<Bytes>, w: World)
    requires ToolSound(t) && ReuseHolds(t, l, s, ids, plains, w) && t.hash(plain) == chunk.chunkId
    requires ReuseOk(t, l.index, l.segments, w.library) && NamesDistinct(l.segments)
    requires (chunk.chunkId, l.kind.availability) in l.index
    ensures var r := l.index[(chunk.chunkId, l.kind.availability)];
            && r.segmentOrdinal < |l.segments|
            && var used := WithSegment(s.used, l.segments[r.segmentOrdinal]);
               var p := PendingBlock(Existing(l.segments[r.segmentOrdinal].id),
                                     r.block.(logicalOffset := chunk.logicalOffset));
               var v := w.(used := used);
               && Grows(w, v) && Home(p, v) == l.kind.availability
               && ReuseHolds(t, l, ReuseState(s.current[(chunk.chunkId, l.kind) := p], used, s.pending + [p], s.reused),
                             ids + [chunk.chunkId], plains + [plain], v)
  {
    hide ToolSound, BlocksOk, CurrentOk, AllReferenced, Grows, UsedOk, Frugal, SealedOnce, NamedByContent;
    var past := (chunk.chunkId, l.kind.availability);
    var r := l.index[past];
    assert ReusableOk(t, past, r, l.segments, w.library);
    var segment := l.segments[r.segmentOrdinal];
    var v := w.(used := WithSegment(s.used, segment));
    SegmentUsed(w, l.index, l.segments, segment);
    if segment.id in s.used {
      UsedNamed(s.used, l.index, l.segments, segment.id);
      SameName(l.segments, s.used[segment.id], segment);
    }
    SameHash(t, PlainAt(r.block, w.library[segment.id]), plain);
    var p := PendingBlock(Existing(segment.id), r.block.(logicalOffset := chunk.logicalOffset));
    assert Gives(p, plain, l.kind.availability, v);
    ReusedPushed(t, l, s, chunk, plain, ids, plains, w, v, p, segment);
  }

  lemma UsedNamed(used: map<Bytes, SegmentRecord>, index: ReuseIndex, segments: seq<SegmentRecord>, id: Bytes)
    requires UsedOk(used, index, segments) && id in used
    ensures used[id].id == id && used[id] in segments
  {
  }

  lemma ReusedPushed(t: Tool, l: Lookup, s: ReuseState, chunk: CachedChunk, plain: Bytes, ids: seq<Bytes>,
                     plains: seq<Bytes>, w: World, v: World, p: PendingBlock, segment: SegmentRecord)
    requires ReuseHolds(t, l, s, ids, plains, w) && t.hash(plain) == chunk.chunkId && Grows(w, v)
    requires v == w.(used := WithSegment(s.used, segment)) && UsedOk(v.used, l.index, l.segments)
    requires Gives(p, plain, l.kind.availability, v) && p.locator == Existing(segment.id)
    ensures ReuseHolds(t, l, ReuseState(s.current[(chunk.chunkId, l.kind) := p], v.used, s.pending + [p], s.reused),
                       ids + [chunk.chunkId], plains + [plain], v)
  {
    hide BlocksOk, CurrentOk, Grows, UsedOk, Gives, Home, UsesSegment, UsesBlock;
    GivesHome(p, plain, l.kind.availability, v);
    BlocksStay(t, s.pending, ids, plains, w, v);
    PushBlock(t, s.pending, ids, plains, v, p, plain);
    CurrentStays(t, s.current, w, v);
    CurrentWith(t, s.current, v, (chunk.chunkId, l.kind), p, plain);
    UsesMore(s.pending, p);
  }

  /** What adding a chunk does, said of the blocks there are. It is served by a block of this build in the chunk's class
  or of the previous release in its availability, of its name and length, and raw unless the policy allows compressed
  blocks; then nothing is written, and a block of the previous release brings its segment into use. A chunk is sealed
  only when there is no such block, and from then on there is one. */
  ghost predicate ServedOrSealed(l: Lookup, s: ReuseState, o: Output, chunk: CachedChunk, ok: bool, next: ReuseState,
                                 out: Output)
  {
    var now, past := (chunk.chunkId, l.kind), (chunk.chunkId, l.kind.availability);
    var current := now in s.current && s.current[now].reference.plainLen == chunk.plainLen
                   && (l.compression.Auto? || s.current[now].reference.codec.Raw?);
    var existing := past in l.index && l.index[past].block.plainLen == chunk.plainLen
                    && (l.compression.Auto? || l.index[past].block.codec.Raw?);
    if current || existing then
      && ok && out == o && next.reused == Min(s.reused + 1, U32_LIMIT - 1)
      && (!current ==> l.index[past].segmentOrdinal < |l.segments|
                       && l.segments[l.index[past].segmentOrdinal].id in next.used)
    else
      ok ==>
        && next.reused == s.reused && next.used == s.used && out.newBlocks == Min(o.newBlocks + 1, U32_LIMIT - 1)
        && now in next.current && next.current[now].reference.plainLen == chunk.plainLen
        && (l.compression.Auto? || next.current[now].reference.codec.Raw?)
  }

  lemma ServedWhenReused(l: Lookup, s: ReuseState, o: Output, chunk: CachedChunk)
    requires ReuseOne(l, s, chunk).Some?
    ensures ServedOrSealed(l, s, o, chunk, true, ReuseOne(l, s, chunk).value, o)
  {
  }

  lemma SealedWhenNot(t: Tool, library: map<Bytes, Manifest>, l: Lookup, s: ReuseState, o: Output, chunk: CachedChunk,
                      ok: bool, next: ReuseState, out: Output)
    requires ReuseOne(l, s, chunk).None? && ReuseOk(t, l.index, l.segments, library)
    requires ok ==> next.reused == s.reused && next.used == s.used
                    && out.newBlocks == Min(o.newBlocks + 1, U32_LIMIT - 1)
                    && CurrentHas(next.current, (chunk.chunkId, l.kind, l.compression))
                    && next.current[(chunk.chunkId, l.kind)].reference.plainLen == chunk.plainLen
    ensures ServedOrSealed(l, s, o, chunk, ok, next, out)
  {
  }

  // ------------------------------------------------------------- no chunk is sealed twice

  /** This build has a block that serves the chunk. */
  predicate CurrentHas(current: CurrentReuse, key: ChunkKey) {
    (key.0, key.1) in current && key.2.Accepts(current[(key.0, key.1)].reference.codec)
  }

  /** Every new block was sealed for another chunk, class or policy, and serves what it was sealed for ever after. */
  ghost predicate SealedOnce(sealedFor: set<ChunkKey>, newBlocks: nat, current: CurrentReuse) {
    newBlocks <= |sealedFor| && forall key :: key in sealedFor ==> CurrentHas(current, key)
  }

  /** A block of the chunk's name has its length. */
  lemma CurrentLength(t: Tool, current: CurrentReuse, w: World, key: (Bytes, SegmentClass), plain: Bytes)
    requires ToolSound(t) && CurrentOk(t, current, w) && key in current && key.0 == t.hash(plain)
    ensures current[key].reference.plainLen == |plain|
  {
    hide ToolSound, Home;
    SameHash(t, PlainOf(current[key], w), plain);
  }

  /** Where the chunk is not served by this build, another block of it may take its place: it serves all that the one
  before served. */
  lemma SealedStays(sealedFor: set<ChunkKey>, newBlocks: nat, current: CurrentReuse, key: ChunkKey, p: PendingBlock)
    requires SealedOnce(sealedFor, newBlocks, current) && !CurrentHas(current, key)
    requires key.2.Accepts(p.reference.codec)
    ensures SealedOnce(sealedFor, newBlocks, current[(key.0, key.1) := p]) && key !in sealedFor
    ensures CurrentHas(current[(key.0, key.1) := p], key)
  {
    var more := current[(key.0, key.1) := p];
    forall k | k in sealedFor
      ensures CurrentHas(more, k)
    {
      if k.0 == key.0 && k.1 == key.1 {
        assert CurrentHas(current, k) && !CurrentHas(current, key);
      }
    }
  }

  lemma SealedFor(sealedFor: set<ChunkKey>, newBlocks: nat, current: CurrentReuse, key: ChunkKey)
    requires SealedOnce(sealedFor, newBlocks, current) && key !in sealedFor && CurrentHas(current, key)
    ensures SealedOnce(sealedFor + {key}, Min(newBlocks + 1, U32_LIMIT - 1), current)
  {
  }

  /** A chunk that cannot be reused is not served by this build. */
  lemma NotServed(t: Tool, l: Lookup, s: ReuseState, w: World, offset: nat, plain: Bytes)
    requires ToolSound(t) && CurrentOk(t, s.current, w)
    requires ReuseOne(l, s, CachedChunk(offset, |plain|, t.hash(plain))).None?
    ensures !CurrentHas(s.current, (t.hash(plain), l.kind, l.compression))
  {
    hide ToolSound, CurrentOk;
    if (t.hash(plain), l.kind) in s.current {
      CurrentLength(t, s.current, w, (t.hash(plain), l.kind), plain);
    }
  }

  /** A block of the previous release takes the place of one of this build only where that does not serve the chunk. */
  lemma PastKeepsSealed(t: Tool, l: Lookup, s: ReuseState, w: World, chunk: CachedChunk, plain: Bytes,
                        sealedFor: set<ChunkKey>, newBlocks: nat, p: PendingBlock)
    requires ToolSound(t) && CurrentOk(t, s.current, w) && SealedOnce(sealedFor, newBlocks, s.current)
    requires t.hash(plain) == chunk.chunkId && ReuseOk(t, l.index, l.segments, w.library)
    requires var key := (chunk.chunkId, l.kind);
             !(key in s.current && s.current[key].reference.plainLen == chunk.plainLen
               && l.compression.Accepts(s.current[key].reference.codec))
    requires var past := (chunk.chunkId, l.kind.availability);
             past in l.index && l.index[past].block.plainLen == chunk.plainLen
             && l.compression.Accepts(l.index[past].block.codec)
    requires p.reference.codec == l.index[(chunk.chunkId, l.kind.availability)].block.codec
    ensures SealedOnce(sealedFor, newBlocks, s.current[(chunk.chunkId, l.kind) := p])
  {
    hide ToolSound, CurrentOk, SealedOnce;
    var key, past := (chunk.chunkId, l.kind), (chunk.chunkId, l.kind.availability);
    PastLength(t, l, w.library, past, plain);
    if key in s.current {
      CurrentLength(t, s.current, w, key, plain);
    }
    SealedStays(sealedFor, newBlocks, s.current, (chunk.chunkId, l.kind, l.compression), p);
  }

  lemma PastLength(t: Tool, l: Lookup, library: map<Bytes, Manifest>, past: (Bytes, Availability), plain: Bytes)
    requires ToolSound(t) && ReuseOk(t, l.index, l.segments, library) && past in l.index && past.0 == t.hash(plain)
    ensures l.index[past].block.plainLen == |plain|
  {
    hide ToolSound;
    assert ReusableOk(t, past, l.index[past], l.segments, library);
    SameHash(t, PlainAt(l.index[past].block, library[l.segments[l.index[past].segmentOrdinal].id]), plain);
  }

  // ----------------------------------------------------------------- the build context

  ghost predicate TapeOk(tape: seq<Draw>) {
    && (forall i :: 0 <= i < |tape| ==> |tape[i].uid| == 16 && |tape[i].salt| == 16 && |tape[i].noncePrefix| == 8)
    && (forall i, j :: 0 <= i < j < |tape| ==> tape[i].uid != tape[j].uid)
  }

  /** A build in progress. `plains`, `manifests` and `kinds` are what its blocks and new segments hold, `closed` counts
  the segments closed at the end of the build, `faults` the file operations that failed; `sealedFor` is what new blocks
  were sealed for. */
  class BuildContext {
    const tool: Tool
    const options: Options
    const projectId: Bytes
    const tape: seq<Draw>
    const reuseIndex: ReuseIndex
    const reuseSegments: seq<SegmentRecord>
    ghost const library: map<Bytes, Manifest>
    var data: map<Bytes, Bytes>
    var currentReuse: CurrentReuse
    var used: map<Bytes, SegmentRecord>
    var records: seq<Option<SegmentRecord>>
    var active: seq<ActiveSegment>
    var pending: seq<PendingBlock>
    var chunkIds: seq<Bytes>
    var fileRecords: seq<FileRecord>
    var filePaths: seq<Bytes>
    var pathPool: Bytes
    var fingerprint: seq<FileItem>
    var reusedBlocks: nat
    var newBlocks: nat
    var newSegmentBytes: nat
    ghost var plains: seq<Bytes>
    ghost var manifests: seq<Manifest>
    ghost var kinds: seq<SegmentClass>
    ghost var closed: nat
    ghost var faults: nat
    ghost var sealedFor: set<ChunkKey>

    ghost function Here(): World
      reads this
    {
      World(library, used, manifests, kinds)
    }

    ghost function Reuse(): ReuseState
      reads this
    {
      ReuseState(currentReuse, used, pending, reusedBlocks)
    }

    ghost function Out(): Output
      reads this
    {
      Output(data, records, active, manifests, kinds, newBlocks, newSegmentBytes, sealedFor)
    }

    ghost predicate Settled()
      reads this
    {
      && ToolSound(tool) && |projectId| == 16 && TapeOk(tape) && NamedByContent(tool, data)
      && LibraryOk(tool, projectId, data, reuseSegments, library)
      && ReuseOk(tool, reuseIndex, reuseSegments, library)
      && UsedOk(used, reuseIndex, reuseSegments) && NamesDistinct(reuseSegments)
    }

    /** What holds after each chunk, with `ids` the names of the chunks added. */
    ghost predicate Holding(ids: seq<Bytes>)
      reads this
    {
      && Settled()
      && BlocksOk(tool, pending, ids, plains, Here())
      && CurrentOk(tool, currentReuse, Here())
      && SegmentsOk(tool, projectId, data, records, active, manifests, kinds, tape, options.targetBytes)
      && NoneEmpty(active)
      && AllReferenced(pending, Here())
      && Frugal(manifests, active, closed, options.targetBytes, plains)
      && SealedOnce(sealedFor, newBlocks, currentReuse)
      && (|pending| < U32_LIMIT ==> reusedBlocks + newBlocks == |pending|)
    }

    ghost predicate Valid()
      reads this
    {
      Holding(chunkIds)
    }

    constructor (tool: Tool, options: Options, projectId: Bytes, tape: seq<Draw>, index: ReuseIndex,
                 segments: seq<SegmentRecord>, data: map<Bytes, Bytes>, ghost library: map<Bytes, Manifest>)
      requires ToolSound(tool) && |projectId| == 16 && TapeOk(tape) && NamedByContent(tool, data)
      requires LibraryOk(tool, projectId, data, segments, library) && ReuseOk(tool, index, segments, library)
      requires NamesDistinct(segments)
      ensures Valid() && this.tool == tool && this.options == options && this.projectId == projectId
      ensures this.tape == tape
      ensures reuseIndex == index && reuseSegments == segments && this.data == data && this.library == library
      ensures fileRecords == [] && filePaths == [] && pathPool == [] && fingerprint == [] && pending == []
      ensures plains == [] && closed == 0 && faults == 0 && sealedFor == {}
      ensures records == [] && used == map[] && newBlocks == 0 && reusedBlocks == 0
    {
      hide ToolSound, BlocksOk, CurrentOk, SegmentsOk, AllReferenced, NoneEmpty, LibraryOk, ReuseOk, UsedOk, TapeOk,
           NamesDistinct, Frugal, SealedOnce, NamedByContent;
      this.tool, this.options, this.projectId, this.tape := tool, options, projectId, tape;
      reuseIndex, reuseSegments, this.library, this.data := index, segments, library, data;
      currentReuse, used, records, active, pending, chunkIds := map[], map[], [], [], [], [];
      fileRecords, filePaths, pathPool, fingerprint := [], [], [], [];
      reusedBlocks, newBlocks, newSegmentBytes, plains, manifests, kinds := 0, 0, 0, [], [], [];
      closed, faults, sealedFor := 0, 0, {};
      NothingYet(tool, projectId, data, index, segments, tape, options.targetBytes, World(library, map[], [], []));
    }

    ghost function LookupOf(kind: SegmentClass, compression: Compression): Lookup {
      Lookup(reuseIndex, reuseSegments, kind, compression)
    }

    /** Notes the name of the next chunk, for the fingerprint and for later reuse. */
    method RecordChunk(chunkId: Bytes)
      requires Valid() && fingerprint != []
      modifies this`chunkIds, this`fingerprint
      ensures chunkIds == old(chunkIds) + [chunkId] && fingerprint == WithId(old(fingerprint), chunkId)
      ensures chunkIds[..|chunkIds| - 1] == old(chunkIds) && Holding(old(chunkIds))
    {
      hide ToolSound, LibraryOk, ReuseOk, UsedOk, BlocksOk, CurrentOk, SegmentsOk, AllReferenced, NoneEmpty, TapeOk,
           NamesDistinct, Frugal, SealedOnce, NamedByContent;
      var last := |fingerprint| - 1;
      fingerprint := fingerprint[last := fingerprint[last].(ids := fingerprint[last].ids + [chunkId])];
      chunkIds := chunkIds + [chunkId];
    }

    /** Serves a chunk by a block of the previous release. */
    method TakePast(chunk: CachedChunk, kind: SegmentClass, compression: Compression, ghost plain: Bytes)
      returns (r: Result<bool>)
      requires chunkIds != [] && chunkIds[|chunkIds| - 1] == chunk.chunkId == tool.hash(plain)
      requires Holding(chunkIds[..|chunkIds| - 1])
      requires var key := (chunk.chunkId, kind);
               !(key in currentReuse && currentReuse[key].reference.plainLen == chunk.plainLen
                 && compression.Accepts(currentReuse[key].reference.codec))
      requires var past := (chunk.chunkId, kind.availability);
               past in reuseIndex && reuseIndex[past].block.plainLen == chunk.plainLen
               && compression.Accepts(reuseIndex[past].block.codec)
      modifies this`currentReuse, this`used, this`pending, this`reusedBlocks, this`plains
      ensures r == Ok(true) && ReuseOne(LookupOf(kind, compression), old(Reuse()), chunk) == Some(Reuse())
      ensures Valid() && Pushed(old(Reuse()), old(Here()), old(plains), chunk.logicalOffset, plain, kind)
    {
      hide ToolSound, LibraryOk, ReuseOk, UsedOk, BlocksOk, CurrentOk, SegmentsOk, AllReferenced, NoneEmpty, TapeOk,
           NamesDistinct, Gives, Home, Grows, PlainOf, Frugal, SealedOnce, NamedByContent;
      ghost var ids, w, l := chunkIds[..|chunkIds| - 1], Here(), LookupOf(kind, compression);
      assert chunkIds == ids + [chunk.chunkId];
      var past := (chunk.chunkId, kind.availability);
      ReusedFromPast(tool, l, Reuse(), chunk, plain, ids, plains, w);
      if reuseIndex[past].segmentOrdinal >= |reuseSegments| {
        return Err(InvalidInput);
      }
      PastKeepsSealed(tool, l, Reuse(), w, chunk, plain, sealedFor, newBlocks,
                      PendingBlock(Existing(reuseSegments[reuseIndex[past].segmentOrdinal].id),
                                   reuseIndex[past].block.(logicalOffset := chunk.logicalOffset)));
      UseSegment(reuseSegments[reuseIndex[past].segmentOrdinal],
                 reuseIndex[past].block.(logicalOffset := chunk.logicalOffset), (chunk.chunkId, kind));
      FrugalMore(manifests, active, closed, options.targetBytes, plains, plain);
      plains := plains + [plain];
      return Ok(true);
    }

    /** Serves a chunk from what is already sealed, if that has its name, length and an acceptable codec.
    `plain` is the chunk that is named. */
    method TryReuseChunk(logicalOffset: nat, plainLen: nat, chunkId: Bytes, kind: SegmentClass,
                         compression: Compression, ghost plain: Bytes)
      returns (r: Result<bool>)
      requires chunkIds != [] && chunkIds[|chunkIds| - 1] == chunkId == tool.hash(plain)
      requires Holding(chunkIds[..|chunkIds| - 1])
      modifies this`currentReuse, this`used, this`pending, this`reusedBlocks, this`plains
      ensures r.Ok?
      ensures ReuseOne(LookupOf(kind, compression), old(Reuse()), CachedChunk(logicalOffset, plainLen, chunkId))
           == if r.value then Some(Reuse()) else None
      ensures r.value ==> Valid() && Pushed(old(Reuse()), old(Here()), old(plains), logicalOffset, plain, kind)
      ensures !r.value ==> Reuse() == old(Reuse()) && plains == old(plains) && Holding(chunkIds[..|chunkIds| - 1])
    {
      hide ToolSound, LibraryOk, ReuseOk, UsedOk, BlocksOk, CurrentOk, SegmentsOk, AllReferenced, NoneEmpty, TapeOk,
           NamesDistinct, Gives, Home, Grows, PlainOf, Frugal, SealedOnce, NamedByContent;
      ghost var ids := chunkIds[..|chunkIds| - 1];
      ghost var w := Here();
      ghost var l := LookupOf(kind, compression);
      var chunk := CachedChunk(logicalOffset, plainLen, chunkId);
      assert chunkIds == ids + [chunkId];
      var key := (chunkId, kind);
      if key in currentReuse && currentReuse[key].reference.plainLen == plainLen
         && compression.Accepts(currentReuse[key].reference.codec)
      {
        var reused := currentReuse[key];
        reused := reused.(reference := reused.reference.(logicalOffset := logicalOffset));
        ReusedFromCurrent(tool, l, Reuse(), chunk, plain, ids, plains, w);
        GrowsSelf(w);
        FrugalMore(manifests, active, closed, options.targetBytes, plains, plain);
        pending := pending + [reused];
        reusedBlocks := Min(reusedBlocks + 1, U32_LIMIT - 1);
        plains := plains + [plain];
        return Ok(true);
      }
      var past := (chunkId, kind.availability);
      if past in reuseIndex && reuseIndex[past].block.plainLen == plainLen
         && compression.Accepts(reuseIndex[past].block.codec)
      {
        r := TakePast(chunk, kind, compression, plain);
        return;
      }
      return Ok(false);
    }

    /** Keeps a block of the previous release in its segment, which is thereby in use. */
    method UseSegment(segment: SegmentRecord, reference: BlockRef, key: (Bytes, SegmentClass))
      modifies this`currentReuse, this`used, this`pending, this`reusedBlocks
      ensures var p := PendingBlock(Existing(segment.id), reference);
              Reuse() == ReuseState(old(currentReuse)[key := p], WithSegment(old(used), segment), old(pending) + [p],
                                    SaturatedNext(old(reusedBlocks)))
    {
      if segment.id !in used {
        used := used[segment.id := segment];
      }
      var reused := PendingBlock(Existing(segment.id), reference);
      pending := pending + [reused];
      currentReuse := currentReuse[key := reused];
      reusedBlocks := Min(reusedBlocks + 1, U32_LIMIT - 1);
    }

    ghost predicate Writing()
      reads this
    {
      Settled() && SegmentsOk(tool, projectId, data, records, active, manifests, kinds, tape, options.targetBytes)
    }

    function ActivePosition(kind: SegmentClass): (r: Option<nat>)
      reads this
      ensures r.Some? ==> r.value < |active| && active[r.value].kind == kind
      ensures r.None? ==> forall p :: 0 <= p < |active| ==> active[p].kind != kind
    {
      PositionOf(active, kind)
    }

    /** Opens a segment for a class that has none; its randomness is the next draw of the tape. */
    method StartSegment(kind: SegmentClass, ghost extra: nat) returns (r: Result<nat>)
      requires Writing() && (forall p :: 0 <= p < |active| ==> active[p].kind != kind)
      requires Rotated(manifests, active, closed, options.targetBytes, extra) && closed == 0
      modifies this`records, this`active, this`manifests, this`kinds, this`faults
      ensures faults >= old(faults)
      ensures r.Err? ==> faults > old(faults) || |tape| <= |old(manifests)|
      ensures r.Ok? ==> Writing() && r.value == |active| - 1 && records == old(records) + [None]
                        && active == old(active) + [ActiveSegment(kind, |old(records)|,
                                         NewSegment(tape[|old(records)|], kind.availability, 0, 0, []))]
                        && manifests == old(manifests) + [[]] && kinds == old(kinds) + [kind]
      ensures r.Ok? ==> Rotated(manifests, active, closed, options.targetBytes, extra)
    {
      hide ToolSound, LibraryOk, ReuseOk, UsedOk, SegmentsOk, TapeOk, NamesDistinct, NamedByContent, Rotated;
      SegmentsFit(tool, projectId, data, records, active, manifests, kinds, tape, options.targetBytes);
      KindsDistinct(tool, projectId, data, records, active, manifests, kinds, tape, options.targetBytes);
      FewOpen(active, kind);
      var index := |records|;
      if index >= |tape| {
        return Err(Io);
      }
      var created: bool := *;
      if !created {
        faults := faults + 1;
        return Err(Io);
      }
      SegmentStarted(tool, projectId, data, records, active, manifests, kinds, tape, options.targetBytes, kind);
      var writer := NewSegment(tape[index], kind.availability, 0, 0, []);
      RotatedStart(manifests, active, closed, options.targetBytes, extra, ActiveSegment(kind, index, writer));
      records := records + [None];
      active := active + [ActiveSegment(kind, index, writer)];
      manifests, kinds := manifests + [[]], kinds + [kind];
      return Ok(|active| - 1);
    }

    /** Closes one segment: its header is completed, its file named by its content and its record stored.
    A file of that name that is already there is kept if its content has the name. */
    method FinishActiveSegment(position: nat) returns (r: Result<()>)
      requires Writing() && position < |active| && active[position].writer.blockCount > 0
      modifies this`data, this`records, this`active, this`newSegmentBytes, this`faults
      ensures Adds(tool, old(data), data) && faults >= old(faults)
      ensures r.Err? ==> faults > old(faults)
                         || SEGMENT_HEADER_SIZE + old(active[position].writer.payloadLen) >= U64_LIMIT
      ensures r.Ok? ==> Writing() && active == SwapRemove(old(active), position)
      ensures r.Ok? ==> var index := old(active[position].index);
                        && index < |old(records)| && old(records)[index].None?
                        && records == old(records)[index := records[index]] && records[index].Some?
                        && newSegmentBytes == Min(old(newSegmentBytes) + records[index].value.fileLen, U64_LIMIT - 1)
    {
      hide ToolSound, UsedOk, ReuseOk, TapeOk, NamesDistinct, LibraryOk, Holds, EncodeSegmentHeader, Bounded,
           TargetBytes, HasWriter, FinishedOk, Stored, SegmentsOk;
      var segment, writer := active[position], active[position].writer;
      ghost var before := active;
      WriterAt(tool, projectId, data, records, active, manifests, kinds, tape, options.targetBytes, position);
      active := SwapRemove(active, position);
      var fileLen := SEGMENT_HEADER_SIZE + writer.payloadLen;
      if fileLen >= U64_LIMIT {
        return Err(InvalidInput);
      }
      var header := SegmentHeader(projectId, writer.draw.uid, writer.draw.salt, writer.draw.noncePrefix,
                                  writer.blockCount, writer.payloadLen, fileLen);
      HeaderFits(tape, segment.index, header);
      var file := EncodeSegmentHeader(header) + writer.payload;
      var id := tool.hash(file);
      var written: bool := *;
      if !written {
        faults := faults + 1;
        return Err(Io);
      }
      if id in data {
        if tool.hash(data[id]) != id {
          return Err(InvalidInput);
        }
        SameHash(tool, data[id], file);
      } else {
        data := data[id := file];
      }
      var record := SegmentRecord(id, writer.draw.uid, writer.draw.salt, writer.draw.noncePrefix, fileLen,
                                  writer.payloadLen, writer.blockCount, writer.availability);
      newSegmentBytes := Min(newSegmentBytes + fileLen, U64_LIMIT - 1);
      SegmentFlushed(tool, projectId, old(data), data, records, before, manifests, kinds, tape, options.targetBytes,
                     position, record);
      LibraryStays(tool, projectId, old(data), data, reuseSegments, library);
      if segment.index >= |records| || records[segment.index].Some? {
        return Err(InvalidInput);
      }
      records := records[segment.index := Some(record)];
      return Ok(());
    }

    /** Appends one sealed block to a writer; its reference says where it went. */
    method WriteBlock(position: nat, logicalOffset: nat, plaintext: Bytes, codec: Codec, encoded: Bytes)
      returns (r: Result<BlockRef>)
      requires Writing() && position < |active| && 0 < |plaintext| <= MAX_BLOCK_PLAIN_LEN
      requires encoded == Encoded(tool, options.level, codec, plaintext)
      requires CanonicalLength(codec, |encoded| + TAG_SIZE, |plaintext|)
      requires HasRoom(active[position], |encoded| + TAG_SIZE, options.targetBytes)
      requires Rotated(manifests, active, closed, options.targetBytes, |encoded| + TAG_SIZE)
      modifies this`active, this`manifests, this`faults
      ensures faults >= old(faults)
      ensures r.Err? ==> faults > old(faults) || Overfull(old(manifests), |encoded| + TAG_SIZE)
      ensures r.Ok? ==> Rotated(manifests, active, closed, options.targetBytes, 0)
                        && StoredAll(manifests) == StoredAll(old(manifests)) + |encoded| + TAG_SIZE
                        && BlockTotal(manifests) == BlockTotal(old(manifests)) + 1
      ensures r.Ok? ==> Writing() && |active| == |old(active)| && |active[position].writer.payload| > 0
                        && active == old(active)[position := active[position]] && active[position].writer.blockCount > 0
                        && active[position].kind == old(active)[position].kind
      ensures r.Ok? ==> var index := old(active)[position].index;
                        && index < |manifests| == |old(manifests)|
                        && manifests == old(manifests)[index := manifests[index]]
                        && Appended(old(manifests)[index], manifests[index], r.value, plaintext)
                        && r.value.logicalOffset == logicalOffset && r.value.codec == codec
    {
      hide ToolSound, UsedOk, ReuseOk, TapeOk, NamesDistinct, LibraryOk, Holds, SegmentsOk, HasWriter, FinishedOk,
           Stored, TargetBytes, Bounded, Rotated, StoredAll, StoredTotal, BlockTotal, NamedByContent, Overfull;
      WriteFails(manifests, active, closed, options.targetBytes, position, |encoded| + TAG_SIZE);
      WriterAt(tool, projectId, data, records, active, manifests, kinds, tape, options.targetBytes, position);
      var a, writer := active[position], active[position].writer;
      ghost var m := manifests[a.index];
      var storedLen := |encoded| + TAG_SIZE;
      if storedLen >= U32_LIMIT {
        return Err(InvalidInput);
      }
      var ordinal := writer.blockCount;
      var sealed := tool.seal(BlockAad(writer.draw.uid, ordinal, codec, storedLen, |plaintext|), encoded);
      SealedReads(tool, writer.draw.uid, ordinal, options.level, codec, plaintext);
      var physicalOffset := SEGMENT_HEADER_SIZE + writer.payloadLen;
      if physicalOffset >= U64_LIMIT || writer.payloadLen + |sealed| >= U64_LIMIT
         || writer.blockCount + 1 >= U32_LIMIT
      {
        return Err(InvalidInput);
      }
      var written: bool := *;
      if !written {
        faults := faults + 1;
        return Err(Io);
      }
      ghost var e := StoredBlock(physicalOffset, |sealed|, options.level, codec, tool.crypto.digest(sealed), plaintext);
      writer := writer.(payload := writer.payload + sealed, payloadLen := writer.payloadLen + |sealed|,
                        blockCount := writer.blockCount + 1);
      var grown := a.(writer := writer);
      WriterGrown(tool, a, m, tape, options.targetBytes, options.level, encoded, sealed, e, grown);
      BlockWritten(tool, projectId, data, records, active, manifests, kinds, tape, options.targetBytes, position, grown,
                   m + [e]);
      RotatedWrite(manifests, active, closed, options.targetBytes, position, grown, a.index, m + [e], storedLen);
      active := active[position := grown];
      manifests := manifests[a.index := m + [e]];
      return Ok(BlockRef(logicalOffset, 0, ordinal, physicalOffset, storedLen, |plaintext|, codec,
                         tool.crypto.digest(sealed)));
    }

    /** Closes the segment of a class that has no room for `storedLen` more bytes. */
    method CloseFull(kind: SegmentClass, storedLen: nat) returns (r: Result<()>)
      requires Writing() && NoneEmpty(active) && Rotated(manifests, active, closed, options.targetBytes, 0)
      requires closed == 0
      modifies this`data, this`records, this`active, this`newSegmentBytes, this`faults
      ensures Adds(tool, old(data), data) && faults >= old(faults)
      ensures r.Err? ==> faults > old(faults) || Cramped(|tape|, options.targetBytes, manifests, storedLen)
      ensures r.Ok? ==> Writing() && NoneEmpty(active)
                        && Rotated(manifests, active, closed, options.targetBytes, storedLen)
      ensures var found := PositionOf(old(active), kind);
              found.None? || HasRoom(old(active)[found.value], storedLen, options.targetBytes) ==>
                  r.Ok? && Out() == old(Out())
      ensures var found := PositionOf(old(active), kind);
              r.Ok? && found.Some? && !HasRoom(old(active)[found.value], storedLen, options.targetBytes) ==>
                forall p :: 0 <= p < |active| ==> active[p].kind != kind
    {
      hide ToolSound, UsedOk, ReuseOk, TapeOk, NamesDistinct, LibraryOk, TargetBytes, SegmentsOk, Settled, Rotated,
           Cramped, Adds, StoredAll;
      AddsNothing(tool, data);
      RotatedLoosely(manifests, active, closed, options.targetBytes, storedLen);
      KindsDistinct(tool, projectId, data, records, active, manifests, kinds, tape, options.targetBytes);
      var found := ActivePosition(kind);
      if found.Some? && active[found.value].writer.blockCount > 0
         && Min(active[found.value].writer.payloadLen + storedLen, U64_LIMIT - 1)
            > TargetBytes(kind, options.targetBytes)
      {
        SwapRemoved(active, found.value);
        FinishFails(|tape|, manifests, active, closed, options.targetBytes, found.value, storedLen);
        RotatedFinish(manifests, active, closed, options.targetBytes, found.value, storedLen);
        r := FinishActiveSegment(found.value);
        return;
      }
      return Ok(());
    }

    /** A writer of the class with room for `storedLen` more bytes: the one there is, unless it is full and
    has to be finished first, or else a new one. */
    method EnsureWriter(kind: SegmentClass, storedLen: nat) returns (r: Result<nat>)
      requires Writing() && NoneEmpty(active) && Rotated(manifests, active, closed, options.targetBytes, 0)
      requires closed == 0
      modifies this`data, this`records, this`active, this`newSegmentBytes, this`manifests, this`kinds, this`faults
      ensures Adds(tool, old(data), data) && faults >= old(faults)
      ensures r.Err? ==> faults > old(faults) || Cramped(|tape|, options.targetBytes, old(manifests), storedLen)
      ensures r.Ok? ==>
                && Writing() && r.value < |active| && active[r.value].kind == kind
                && HasRoom(active[r.value], storedLen, options.targetBytes)
                && Rotated(manifests, active, closed, options.targetBytes, storedLen)
      ensures r.Ok? ==> forall q :: 0 <= q < |active| && q != r.value ==> active[q].writer.blockCount > 0
      ensures var found := PositionOf(old(active), kind);
              if found.Some? && WithinClass(kind.access, PayloadWith(old(active)[found.value], storedLen),
                                            options.targetBytes)
              then r == Ok(found.value) && Out() == old(Out())
              else r.Ok? ==> manifests == old(manifests) + [[]] && kinds == old(kinds) + [kind]
    {
      hide ToolSound, UsedOk, ReuseOk, TapeOk, NamesDistinct, LibraryOk, TargetBytes, SegmentsOk, Settled, Rotated,
           Cramped, Adds;
      ghost var position := PositionOf(active, kind);
      if position.Some? {
        TargetExactlyWhen(kind, PayloadWith(active[position.value], storedLen), options.targetBytes);
      }
      var room := CloseFull(kind, storedLen);
      if room.Err? {
        return Err(room.error);
      }
      var found := ActivePosition(kind);
      if found.Some? {
        return Ok(found.value);
      }
      KindsDistinct(tool, projectId, data, records, active, manifests, kinds, tape, options.targetBytes);
      StartFails(|tape|, manifests, active, options.targetBytes, storedLen, kind);
      r := StartSegment(kind, storedLen);
    }

    /** Adds a chunk: reused where possible, sealed into the segment of its class otherwise. */
    method AddChunk(logicalOffset: nat, plaintext: Bytes, kind: SegmentClass, compression: Compression)
      returns (r: Result<()>)
      requires Valid() && fingerprint != [] && 0 < |plaintext| <= MAX_BLOCK_PLAIN_LEN && closed == 0
      modifies this`chunkIds, this`fingerprint, this`currentReuse, this`used, this`pending, this`reusedBlocks,
               this`plains, this`data, this`records, this`active, this`newSegmentBytes, this`manifests, this`kinds,
               this`newBlocks, this`faults, this`sealedFor
      ensures Adds(tool, old(data), data) && faults >= old(faults)
      ensures r.Err? ==>
                faults > old(faults) || Overloaded(|tape|, options.targetBytes, old(plains) + [plaintext])
      ensures r.Ok? ==> Valid() && Pushed(old(Reuse()), old(Here()), old(plains), logicalOffset, plaintext, kind)
      ensures r.Ok? ==>
                && fingerprint == WithId(old(fingerprint), tool.hash(plaintext))
                && chunkIds == old(chunkIds) + [tool.hash(plaintext)]
      ensures var next := ReuseOne(LookupOf(kind, compression), old(Reuse()),
                                   CachedChunk(logicalOffset, |plaintext|, tool.hash(plaintext)));
              if next.Some? then r.Ok? && Reuse() == next.value && Out() == old(Out())
              else r.Ok? ==> newBlocks == Min(old(newBlocks) + 1, U32_LIMIT - 1)
                             && sealedFor == old(sealedFor) + {(tool.hash(plaintext), kind, compression)}
      ensures ServedOrSealed(LookupOf(kind, compression), old(Reuse()), old(Out()),
                             CachedChunk(logicalOffset, |plaintext|, tool.hash(plaintext)), r.Ok?, Reuse(), Out())
    {
      hide Holding, Grows, Adds, Home, ReuseOne, PastOffers, ServedOrSealed, ReuseOk, ToolSound;
      var chunkId := tool.hash(plaintext);
      ReuseHere();
      ghost var before, out, chunk := Reuse(), Out(), CachedChunk(logicalOffset, |plaintext|, chunkId);
      RecordChunk(chunkId);
      AddsNothing(tool, data);
      var reused := TryReuseChunk(logicalOffset, |plaintext|, chunkId, kind, compression, plaintext);
      if reused.Err? {
        return Err(InvalidInput);
      }
      if reused.value {
        ServedWhenReused(LookupOf(kind, compression), before, Out(), chunk);
        return Ok(());
      }
      r := AddNewBlock(logicalOffset, plaintext, kind, compression);
      SealedWhenNot(tool, library, LookupOf(kind, compression), before, out, chunk, r.Ok?, Reuse(), Out());
    }

    lemma ReuseHere()
      requires Valid()
      ensures ReuseOk(tool, reuseIndex, reuseSegments, library)
    {
      hide ToolSound, ReuseOk, UsedOk, TapeOk, NamesDistinct, LibraryOk, SegmentsOk, BlocksOk, CurrentOk, AllReferenced,
           NoneEmpty, Frugal, SealedOnce, NamedByContent;
    }

    /** Seals a chunk that cannot be reused. */
    method AddNewBlock(logicalOffset: nat, plaintext: Bytes, kind: SegmentClass, compression: Compression)
      returns (r: Result<()>)
      requires 0 < |plaintext| <= MAX_BLOCK_PLAIN_LEN
      requires chunkIds != [] && chunkIds[|chunkIds| - 1] == tool.hash(plaintext) && Holding(chunkIds[..|chunkIds| - 1])
      requires ReuseOne(LookupOf(kind, compression), Reuse(),
                        CachedChunk(logicalOffset, |plaintext|, tool.hash(plaintext))).None?
      requires closed == 0
      modifies this`currentReuse, this`pending, this`plains, this`data, this`records, this`active, this`newSegmentBytes,
               this`manifests, this`kinds, this`newBlocks, this`faults, this`sealedFor
      ensures Adds(tool, old(data), data) && faults >= old(faults)
      ensures r.Err? ==>
                faults > old(faults) || Overloaded(|tape|, options.targetBytes, old(plains) + [plaintext])
      ensures r.Ok? ==> Valid() && Pushed(old(Reuse()), old(Here()), old(plains), logicalOffset, plaintext, kind)
      ensures r.Ok? ==> newBlocks == Min(old(newBlocks) + 1, U32_LIMIT - 1)
                        && sealedFor == old(sealedFor) + {(tool.hash(plaintext), kind, compression)}
      ensures r.Ok? ==> CurrentHas(currentReuse, (tool.hash(plaintext), kind, compression))
                        && currentReuse[(tool.hash(plaintext), kind)].reference.plainLen == |plaintext|
    {
      hide ToolSound, UsedOk, ReuseOk, TapeOk, NamesDistinct, LibraryOk, SegmentsOk, BlocksOk, CurrentOk, AllReferenced,
           Grows, NoneEmpty, Home, OneMoreBlock, Adds, Frugal, SealedOnce, NamedByContent, Rotated, Cramped, Overloaded,
           StoredAll, BlockTotal;
      ghost var ids, w, s := chunkIds[..|chunkIds| - 1], Here(), Reuse();
      assert chunkIds == ids + [tool.hash(plaintext)];
      NotServed(tool, LookupOf(kind, compression), s, w, logicalOffset, plaintext);
      SealFails(|tape|, manifests, active, options.targetBytes, plains, plaintext);
      FrugalIsRotated(manifests, active, closed, options.targetBytes, plains);
      var added, ready := SealBlock(logicalOffset, plaintext, kind, compression);
      if added.Err? {
        return Err(added.error);
      }
      NewBlockAdded(tool, LookupOf(kind, compression), s, plaintext, ids, plains, w, ready, Here(), added.value);
      OneMoreBlockPlace(w, ready, Here(), added.value, plaintext, kind);
      FrugalAfter(old(manifests), old(active), manifests, active, closed, options.targetBytes, plains, plaintext);
      ghost var key := (tool.hash(plaintext), kind, compression);
      SealedStays(sealedFor, newBlocks, currentReuse, key, added.value);
      SealedFor(sealedFor, newBlocks, currentReuse[(key.0, key.1) := added.value], key);
      OneMoreBlockLength(w, ready, Here(), added.value, plaintext, kind);
      KeepBlock(added.value, plaintext, kind, LookupOf(kind, compression));
      return Ok(());
    }

    /** Lists a sealed block, also for reuse within this build. */
    method KeepBlock(p: PendingBlock, ghost plaintext: Bytes, kind: SegmentClass, ghost l: Lookup)
      requires Writing() && NoneEmpty(active) && chunkIds != []
      requires l.index == reuseIndex && l.segments == reuseSegments
      requires ReuseHolds(tool, l,
                          Reuse().(current := currentReuse[(chunkIds[|chunkIds| - 1], kind) := p],
                                   pending := pending + [p]),
                          chunkIds, plains + [plaintext], Here())
      requires Frugal(manifests, active, closed, options.targetBytes, plains + [plaintext])
      requires |pending| < U32_LIMIT ==> reusedBlocks + newBlocks == |pending|
      requires SealedOnce(sealedFor + {(chunkIds[|chunkIds| - 1], kind, l.compression)},
                          Min(newBlocks + 1, U32_LIMIT - 1), currentReuse[(chunkIds[|chunkIds| - 1], kind) := p])
      modifies this`currentReuse, this`pending, this`newBlocks, this`plains, this`sealedFor
      ensures currentReuse == old(currentReuse)[(chunkIds[|chunkIds| - 1], kind) := p]
      ensures sealedFor == old(sealedFor) + {(chunkIds[|chunkIds| - 1], kind, l.compression)}
      ensures Valid() && pending == old(pending) + [p] && plains == old(plains) + [plaintext]
      ensures newBlocks == Min(old(newBlocks) + 1, U32_LIMIT - 1)
    {
      hide ToolSound, UsedOk, ReuseOk, TapeOk, NamesDistinct, LibraryOk, SegmentsOk, BlocksOk, CurrentOk, AllReferenced,
           NoneEmpty, Frugal, SealedOnce, NamedByContent;
      pending := pending + [p];
      currentReuse := currentReuse[(chunkIds[|chunkIds| - 1], kind) := p];
      newBlocks := Min(newBlocks + 1, U32_LIMIT - 1);
      sealedFor := sealedFor + {(chunkIds[|chunkIds| - 1], kind, l.compression)};
      plains := plains + [plaintext];
    }

    /** Compresses a chunk and writes it to the segment of its class; `ready` is the world just before the write. */
    method SealBlock(logicalOffset: nat, plaintext: Bytes, kind: SegmentClass, compression: Compression)
      returns (r: Result<PendingBlock>, ghost ready: World)
      requires 0 < |plaintext| <= MAX_BLOCK_PLAIN_LEN && Writing() && NoneEmpty(active)
      requires Rotated(manifests, active, closed, options.targetBytes, 0) && closed == 0
      modifies this`data, this`records, this`active, this`newSegmentBytes, this`manifests, this`kinds, this`faults
      ensures Adds(tool, old(data), data) && faults >= old(faults)
      ensures r.Err? ==>
                faults > old(faults) || Cramped(|tape|, options.targetBytes, old(manifests), |plaintext| + TAG_SIZE)
      ensures r.Ok? ==> Rotated(manifests, active, closed, options.targetBytes, 0)
                        && StoredAll(manifests) <= StoredAll(old(manifests)) + |plaintext| + TAG_SIZE
                        && BlockTotal(manifests) == BlockTotal(old(manifests)) + 1
                        && |manifests| <= |old(manifests)| + 1
      ensures r.Ok? ==>
                Writing() && NoneEmpty(active) && OneMoreBlock(old(Here()), ready, Here(), r.value, plaintext, kind)
                        && r.value.reference.logicalOffset == logicalOffset
                        && compression.Accepts(r.value.reference.codec)
    {
      hide ToolSound, UsedOk, ReuseOk, TapeOk, NamesDistinct, LibraryOk, SegmentsOk, Encoded, CanonicalLength, HasRoom,
           Appended, WriterOk, Adds, Rotated, Cramped, Overfull, StoredAll, BlockTotal, PositionOf, WithinClass,
           PayloadWith;
      var codec, encoded := CompressBlock(plaintext, compression);
      SealedIsShort(codec, |encoded|, |plaintext|);
      RoomFails(|tape|, options.targetBytes, manifests, |encoded| + TAG_SIZE, |plaintext| + TAG_SIZE);
      ready := Here();
      var position := EnsureWriter(kind, |encoded| + TAG_SIZE);
      if position.Err? {
        return Err(position.error), ready;
      }
      ready := Here();
      OverfullIsCramped(|tape|, options.targetBytes, old(manifests), manifests, |encoded| + TAG_SIZE);
      var index := active[position.value].index;
      WriterAt(tool, projectId, data, records, active, manifests, kinds, tape, options.targetBytes, position.value);
      var reference := WriteBlock(position.value, logicalOffset, plaintext, codec, encoded);
      if reference.Err? {
        return Err(reference.error), ready;
      }
      return Ok(PendingBlock(New(index), reference.value)), ready;
    }

    /** Compression is kept only where it saves more than a fixed margin. */
    method CompressBlock(plaintext: Bytes, compression: Compression) returns (codec: Codec, encoded: Bytes)
      requires ToolSound(tool)
      ensures encoded == Encoded(tool, options.level, codec, plaintext)
      ensures CanonicalLength(codec, |encoded| + TAG_SIZE, |plaintext|)
      ensures codec.Zstd? <==>
                compression.Auto? && |tool.compress(options.level, plaintext)| + 64 < |plaintext|
      ensures compression.Accepts(codec)
    {
      if compression.NeverCompress? {
        return Raw, plaintext;
      }
      var compressed := tool.compress(options.level, plaintext);
      if |compressed| + COMPRESSION_SAVINGS < |plaintext| {
        return Zstd, compressed;
      }
      return Raw, plaintext;
    }

    /** One more block, at its offset, holding the chunk in a segment of the right availability. */
    ghost predicate Pushed(before: ReuseState, w: World, oldPlains: seq<Bytes>, logicalOffset: nat, plain: Bytes,
                           kind: SegmentClass)
      reads this
    {
      && |pending| == |before.pending| + 1 && pending[..|before.pending|] == before.pending
      && pending[|before.pending|].reference.logicalOffset == logicalOffset
      && Home(pending[|before.pending|], Here()) == kind.availability
      && plains == oldPlains + [plain] && Grows(w, Here())
    }
  }

  // ------------------------------------------------------------- why a block cannot be had

  lemma SealedIsShort(codec: Codec, encodedLen: nat, plainLen: nat)
    requires CanonicalLength(codec, encodedLen + TAG_SIZE, plainLen)
    ensures encodedLen <= plainLen
  {
  }

  /** What is written to one segment is part of what is written to all. */
  lemma WriteFails(manifests: seq<Manifest>, active: seq<ActiveSegment>, closed: nat, configured: nat, p: nat,
                   storedLen: nat)
    requires Rotated(manifests, active, closed, configured, storedLen) && p < |active|
    ensures SEGMENT_HEADER_SIZE + active[p].writer.payloadLen + storedLen >= U64_LIMIT ==>
              Overfull(manifests, storedLen)
    ensures active[p].writer.blockCount + 1 >= U32_LIMIT ==> Overfull(manifests, storedLen)
  {
    ActiveMember(active, p);
  }

  lemma FinishFails(draws: nat, manifests: seq<Manifest>, active: seq<ActiveSegment>, closed: nat, configured: nat,
                    p: nat, storedLen: nat)
    requires Rotated(manifests, active, closed, configured, 0) && p < |active|
    ensures SEGMENT_HEADER_SIZE + active[p].writer.payloadLen >= U64_LIMIT ==>
              Cramped(draws, configured, manifests, storedLen)
  {
    ActiveMember(active, p);
  }

  lemma StartFails(draws: nat, manifests: seq<Manifest>, active: seq<ActiveSegment>, configured: nat, storedLen: nat,
                   kind: SegmentClass)
    requires Rotated(manifests, active, 0, configured, storedLen)
    requires forall p, q :: 0 <= p < q < |active| ==> active[p].kind != active[q].kind
    requires forall p :: 0 <= p < |active| ==> active[p].kind != kind
    ensures draws <= |manifests| ==> Cramped(draws, configured, manifests, storedLen)
  {
    hide Rotated, Cramped;
    FewOpen(active, kind);
    if draws <= |manifests| {
      DrawsUsedUp(draws, manifests, active, configured, storedLen);
    }
  }

  lemma RotatedLoosely(manifests: seq<Manifest>, active: seq<ActiveSegment>, closed: nat, configured: nat, extra: nat)
    requires Rotated(manifests, active, closed, configured, 0)
    ensures Rotated(manifests, active, closed, configured, extra)
  {
  }

  lemma RoomFails(draws: nat, configured: nat, manifests: seq<Manifest>, storedLen: nat, most: nat)
    requires storedLen <= most
    ensures Cramped(draws, configured, manifests, storedLen) ==> Cramped(draws, configured, manifests, most)
  {
    if Cramped(draws, configured, manifests, storedLen) {
      CrampedMore(draws, configured, manifests, storedLen, most);
    }
  }

  lemma OverfullIsCramped(draws: nat, configured: nat, manifests: seq<Manifest>, ready: seq<Manifest>, storedLen: nat)
    requires ready == manifests || ready == manifests + [[]]
    ensures Overfull(ready, storedLen) ==> Cramped(draws, configured, manifests, storedLen)
    ensures StoredAll(ready) == StoredAll(manifests) && BlockTotal(ready) == BlockTotal(manifests)
  {
    StoredAppendEmpty(manifests);
  }

  lemma SealFails(draws: nat, manifests: seq<Manifest>, active: seq<ActiveSegment>, configured: nat, plains: seq<Bytes>,
                  plain: Bytes)
    requires Frugal(manifests, active, 0, configured, plains)
    ensures Cramped(draws, configured, manifests, |plain| + TAG_SIZE) ==>
              Overloaded(draws, configured, plains + [plain])
  {
    hide Frugal, Cramped, Overloaded;
    if Cramped(draws, configured, manifests, |plain| + TAG_SIZE) {
      CrampedIsOverloaded(draws, manifests, active, 0, configured, plains, plain);
    }
  }

  lemma FrugalIsRotated(manifests: seq<Manifest>, active: seq<ActiveSegment>, closed: nat, configured: nat,
                        plains: seq<Bytes>)
    requires Frugal(manifests, active, closed, configured, plains)
    ensures Rotated(manifests, active, closed, configured, 0)
  {
  }

  lemma FrugalAfter(manifests: seq<Manifest>, active: seq<ActiveSegment>, manifests': seq<Manifest>,
                    active': seq<ActiveSegment>, closed: nat, configured: nat, plains: seq<Bytes>, plain: Bytes)
    requires Frugal(manifests, active, closed, configured, plains)
    requires Rotated(manifests', active', closed, configured, 0) && |manifests'| <= |manifests| + 1
    requires StoredAll(manifests') <= StoredAll(manifests) + |plain| + TAG_SIZE
    requires BlockTotal(manifests') == BlockTotal(manifests) + 1
    ensures Frugal(manifests', active', closed, configured, plains + [plain])
  {
    hide Rotated;
    SealedAppend(plains, plain);
  }

  lemma NothingYet(t: Tool, projectId: Bytes, data: map<Bytes, Bytes>, index: ReuseIndex, segments: seq<SegmentRecord>,
                   tape: seq<Draw>, configured: nat, w: World)
    requires w.used == map[] && w.manifests == [] && w.kinds == []
    ensures UsedOk(map[], index, segments) && BlocksOk(t, [], [], [], w) && CurrentOk(t, map[], w) && NoneEmpty([])
    ensures AllReferenced([], w)
    ensures SegmentsOk(t, projectId, data, [], [], [], [], tape, configured) && Frugal([], [], 0, configured, [])
    ensures SealedOnce({}, 0, map[])
  {
    hide FinishedOk, HasWriter, WriterOk, ToolSound;
  }

  function WithId(items: seq<FileItem>, id: Bytes): seq<FileItem>
    requires items != []
  {
    var last := |items| - 1;
    items[last := items[last].(ids := items[last].ids + [id])]
  }

  function PositionOf(active: seq<ActiveSegment>, kind: SegmentClass): (r: Option<nat>)
    ensures r.Some? ==> r.value < |active| && active[r.value].kind == kind
    ensures r.None? ==> forall p :: 0 <= p < |active| ==> active[p].kind != kind
  {
    if active == [] then None
    else if active[0].kind == kind then Some(0)
    else
      match PositionOf(active[1..], kind)
      case None => None
      case Some(p) => Some(p + 1)
  }

  lemma SegmentsFit(t: Tool, projectId: Bytes, data: map<Bytes, Bytes>, records: seq<Option<SegmentRecord>>,
                    active: seq<ActiveSegment>, manifests: seq<Manifest>, kinds: seq<SegmentClass>, tape: seq<Draw>,
                    configured: nat)
    requires SegmentsOk(t, projectId, data, records, active, manifests, kinds, tape, configured)
    ensures |records| == |manifests| == |kinds| <= |tape|
  {
  }

  lemma HeaderFits(tape: seq<Draw>, i: nat, h: SegmentHeader)
    requires TapeOk(tape) && i < |tape| && h.uid == tape[i].uid && h.salt == tape[i].salt
    requires h.noncePrefix == tape[i].noncePrefix
    requires |h.projectId| == 16 && h.blockCount < U32_LIMIT && h.payloadLen < U64_LIMIT && h.fileLen < U64_LIMIT
    ensures SegmentHeaderFits(h)
  {
    WordSizes();
  }

  lemma FinishedIs(t: Tool, projectId: Bytes, data: map<Bytes, Bytes>, s: SegmentRecord, m: Manifest, a: ActiveSegment,
                   tape: seq<Draw>, configured: nat)
    requires Stored(t, projectId, data, s, m) && WriterOk(t, a, m, tape, configured) && s.uid == a.writer.draw.uid
    requires s.availability == a.writer.availability
    ensures FinishedOk(t, projectId, data, s, m, a.kind, tape[a.index], configured)
  {
  }

  /** Room for one more block: the writer is empty, or stays within its target. */
  predicate HasRoom(a: ActiveSegment, storedLen: nat, configured: nat) {
    a.writer.blockCount == 0 || PayloadWith(a, storedLen) <= TargetBytes(a.kind, configured)
  }

  /** The payload after one more block, saturating. */
  function PayloadWith(a: ActiveSegment, storedLen: nat): nat {
    Min(a.writer.payloadLen + storedLen, U64_LIMIT - 1)
  }

  /** The manifest has one block more, which the reference describes and which holds `plain`. */
  ghost predicate Appended(m: Manifest, n: Manifest, reference: BlockRef, plain: Bytes) {
    && |n| == |m| + 1 && m <= n && reference.segmentBlockOrdinal == |m|
    && Describes(reference, n[|m|]) && n[|m|].plain == plain
  }

  /** A segment whose file has been written can be recorded. */
  lemma SegmentFlushed(t: Tool, projectId: Bytes, before: map<Bytes, Bytes>, data: map<Bytes, Bytes>,
                       records: seq<Option<SegmentRecord>>, active: seq<ActiveSegment>, manifests: seq<Manifest>,
                       kinds: seq<SegmentClass>, tape: seq<Draw>, configured: nat, p: nat, s: SegmentRecord)
    requires SegmentsOk(t, projectId, before, records, active, manifests, kinds, tape, configured)
    requires p < |active| && active[p].writer.blockCount > 0 && Extends(before, data)
    requires var w := active[p].writer;
             && s == SegmentRecord(s.id, w.draw.uid, w.draw.salt, w.draw.noncePrefix, s.fileLen, w.payloadLen,
                                   w.blockCount, w.availability)
             && s.fileLen == SEGMENT_HEADER_SIZE + w.payloadLen < U64_LIMIT && SegmentHeaderFits(HeaderOf(projectId, s))
             && s.id in data && data[s.id] == SegmentFile(projectId, s, w.payload) && s.id == t.hash(data[s.id])
    ensures active[p].index < |records| && records[active[p].index].None?
    ensures SegmentsOk(t, projectId, data, records[active[p].index := Some(s)], SwapRemove(active, p), manifests, kinds,
                       tape, configured)
  {
    hide Holds, Bounded, TargetBytes, HasWriter, FinishedOk, Stored, EncodeSegmentHeader, SegmentFile;
    assert ActiveAt(t, records, active, manifests, kinds, tape, configured, p);
    var a, m := active[p], manifests[active[p].index];
    FinishedIsStored(t, projectId, data, s, a.writer.payload, m);
    FinishedIs(t, projectId, data, s, m, a, tape, configured);
    SegmentsStay(t, projectId, before, data, records, active, manifests, kinds, tape, configured);
    SegmentFinished(t, projectId, data, records, active, manifests, kinds, tape, configured, p, s);
  }

  /** A writer with room for a block still has its payload as its blocks end to end after it. */
  lemma WriterGrown(t: Tool, a: ActiveSegment, m: Manifest, tape: seq<Draw>, configured: nat, level: int,
                    encoded: Bytes, sealed: Bytes, e: StoredBlock, grown: ActiveSegment)
    requires ToolSound(t) && WriterOk(t, a, m, tape, configured) && 0 < |e.plain| <= MAX_BLOCK_PLAIN_LEN
    requires encoded == Encoded(t, level, e.codec, e.plain)
    requires CanonicalLength(e.codec, |encoded| + TAG_SIZE, |e.plain|)
    requires HasRoom(a, |encoded| + TAG_SIZE, configured)
    requires sealed == t.seal(BlockAad(a.writer.draw.uid, a.writer.blockCount, e.codec, |encoded| + TAG_SIZE,
                                       |e.plain|), encoded)
    requires |encoded| + TAG_SIZE < U32_LIMIT && a.writer.payloadLen + |sealed| < U64_LIMIT
    requires e == StoredBlock(SEGMENT_HEADER_SIZE + a.writer.payloadLen, |sealed|, level, e.codec,
                              t.crypto.digest(sealed), e.plain)
    requires a.writer.blockCount + 1 < U32_LIMIT
    requires grown == a.(writer := a.writer.(payload := a.writer.payload + sealed,
                                             payloadLen := a.writer.payloadLen + |sealed|,
                                             blockCount := a.writer.blockCount + 1))
    ensures |sealed| == |encoded| + TAG_SIZE && StoredTotal(m + [e]) == StoredTotal(m) + |sealed|
    ensures WriterOk(t, grown, m + [e], tape, configured)
  {
    hide ToolSound, Holds, TargetBytes;
    SealedReads(t, a.writer.draw.uid, a.writer.blockCount, level, e.codec, e.plain);
    HoldsOneMore(t, a.writer.draw.uid, a.writer.payload, m, e);
    HoldsLength(t, a.writer.draw.uid, a.writer.payload, m);
    HoldsLength(t, a.writer.draw.uid, a.writer.payload + sealed, m + [e]);
    assert (m + [e])[..|m|] == m;
  }

  lemma WriterAt(t: Tool, projectId: Bytes, data: map<Bytes, Bytes>, records: seq<Option<SegmentRecord>>,
                 active: seq<ActiveSegment>, manifests: seq<Manifest>, kinds: seq<SegmentClass>, tape: seq<Draw>,
                 configured: nat, p: nat)
    requires SegmentsOk(t, projectId, data, records, active, manifests, kinds, tape, configured) && p < |active|
    ensures active[p].index < |records| == |manifests| == |kinds| && kinds[active[p].index] == active[p].kind
    ensures WriterOk(t, active[p], manifests[active[p].index], tape, configured)
  {
    assert ActiveAt(t, records, active, manifests, kinds, tape, configured, p);
  }

  lemma KindsDistinct(t: Tool, projectId: Bytes, data: map<Bytes, Bytes>, records: seq<Option<SegmentRecord>>,
                      active: seq<ActiveSegment>, manifests: seq<Manifest>, kinds: seq<SegmentClass>, tape: seq<Draw>,
                      configured: nat)
    requires SegmentsOk(t, projectId, data, records, active, manifests, kinds, tape, configured)
    ensures forall p, q :: 0 <= p < q < |active| ==> active[p].kind != active[q].kind
  {
  }

  lemma ExtendsSelf(data: map<Bytes, Bytes>)
    ensures Extends(data, data)
  {
  }

  /** The world before and after a block is written: perhaps one more empty manifest, then one more block. */
  ghost predicate OneMoreBlock(w: World, ready: World, v: World, p: PendingBlock, plain: Bytes, kind: SegmentClass) {
    && w.library == ready.library == v.library && w.used == ready.used == v.used && v.kinds == ready.kinds
    && ((ready.manifests == w.manifests && ready.kinds == w.kinds)
        || (ready.manifests == w.manifests + [[]] && ready.kinds == w.kinds + [kind]))
    && p.locator.New? && p.locator.index < |v.manifests| == |ready.manifests|
    && v.manifests == ready.manifests[p.locator.index := v.manifests[p.locator.index]]
    && Appended(ready.manifests[p.locator.index], v.manifests[p.locator.index], p.reference, plain)
    && p.locator.index < |v.kinds| && v.kinds[p.locator.index] == kind
  }

  lemma OneMoreBlockLength(w: World, ready: World, v: World, p: PendingBlock, plain: Bytes, kind: SegmentClass)
    requires OneMoreBlock(w, ready, v, p, plain, kind)
    ensures p.reference.plainLen == |plain|
  {
  }

  lemma OneMoreBlockPlace(w: World, ready: World, v: World, p: PendingBlock, plain: Bytes, kind: SegmentClass)
    requires OneMoreBlock(w, ready, v, p, plain, kind)
    ensures p.locator.New? && v.used == w.used && v.library == w.library
  {
  }

  lemma OneMoreBlockGives(w: World, ready: World, v: World, p: PendingBlock, plain: Bytes, kind: SegmentClass)
    requires OneMoreBlock(w, ready, v, p, plain, kind)
    ensures Grows(w, v) && Gives(p, plain, kind.availability, v)
  {
  }

  lemma OneMoreBlockReferenced(pending: seq<PendingBlock>, w: World, ready: World, v: World, p: PendingBlock,
                               plain: Bytes, kind: SegmentClass)
    requires OneMoreBlock(w, ready, v, p, plain, kind) && AllReferenced(pending, w)
    ensures AllReferenced(pending + [p], v)
  {
    hide UsesSegment, UsesBlock, Describes;
    UsesMore(pending, p);
    forall i, o | 0 <= i < |v.manifests| && 0 <= o < |v.manifests[i]|
      ensures UsesBlock(pending + [p], i, o)
    {
      if i == p.locator.index && o == |v.manifests[i]| - 1 {
        assert UsesBlock(pending + [p], p.locator.index, p.reference.segmentBlockOrdinal);
      } else {
        assert UsesBlock(pending, i, o);
      }
    }
  }

  lemma NewBlockAdded(t: Tool, l: Lookup, s: ReuseState, plain: Bytes, ids: seq<Bytes>, plains: seq<Bytes>, w: World,
                      ready: World, v: World, p: PendingBlock)
    requires ReuseHolds(t, l, s, ids, plains, w) && OneMoreBlock(w, ready, v, p, plain, l.kind)
    ensures ReuseHolds(t, l, s.(current := s.current[(t.hash(plain), l.kind) := p], pending := s.pending + [p]),
                       ids + [t.hash(plain)], plains + [plain], v)
    ensures Grows(w, v) && Home(p, v) == l.kind.availability
  {
    hide BlocksOk, CurrentOk, UsedOk, AllReferenced, Grows, Gives, Home, Frugal, SealedOnce, NamedByContent;
    OneMoreBlockGives(w, ready, v, p, plain, l.kind);
    OneMoreBlockReferenced(s.pending, w, ready, v, p, plain, l.kind);
    GivesHome(p, plain, l.kind.availability, v);
    BlocksStay(t, s.pending, ids, plains, w, v);
    PushBlock(t, s.pending, ids, plains, v, p, plain);
    CurrentStays(t, s.current, w, v);
    CurrentWith(t, s.current, v, (t.hash(plain), l.kind), p, plain);
  }
}
