/** Adding whole files to a build: fixed and content-defined cutting, or replaying the development cache. */
module Packing {
  import opened Basics
  import opened Records
  import opened Tables
  import opened BlockStore
  import opened Sources
  import opened SegmentStore
  import opened Placement
  import opened Rotation
  import opened Builds

  /** A build at one moment. */
  datatype Moment = Moment(library: map<Bytes, Manifest>, reuse: ReuseState, out: Output, plains: seq<Bytes>,
                           ids: seq<Bytes>, items: seq<FileItem>)

  ghost function Now(c: BuildContext): Moment
    reads c
  {
    Moment(c.library, c.Reuse(), c.Out(), c.plains, c.chunkIds, c.fingerprint)
  }

  ghost function WorldAt(m: Moment): World {
    WorldOf(m.library, m.reuse, m.out)
  }

  function Names(t: Tool, chunks: seq<Bytes>): (r: seq<Bytes>)
    ensures |r| == |chunks| && forall j :: 0 <= j < |chunks| ==> r[j] == t.hash(chunks[j])
  {
    seq(|chunks|, j requires 0 <= j < |chunks| => t.hash(chunks[j]))
  }

  function WithIds(items: seq<FileItem>, ids: seq<Bytes>): seq<FileItem>
    requires items != []
  {
    var last := |items| - 1;
    items[last := items[last].(ids := items[last].ids + ids)]
  }

  lemma WithNoIds(items: seq<FileItem>)
    requires items != []
    ensures WithIds(items, []) == items
  {
    assert items[|items| - 1].ids + [] == items[|items| - 1].ids;
  }

  lemma WithOneMoreId(items: seq<FileItem>, ids: seq<Bytes>, id: Bytes)
    requires items != []
    ensures WithId(WithIds(items, ids), id) == WithIds(items, ids + [id])
  {
    assert items[|items| - 1].ids + ids + [id] == items[|items| - 1].ids + (ids + [id]);
  }

  /** What adding the chunks of a file has done since `a`. */
  ghost predicate ChunksAdded(t: Tool, a: Moment, b: Moment, chunks: seq<Bytes>, kind: SegmentClass)
    requires a.items != []
  {
    && Added(a.reuse.pending, b.reuse.pending, chunks, kind.availability, WorldAt(b))
    && b.plains == a.plains + chunks && b.ids == a.ids + Names(t, chunks)
    && b.items == WithIds(a.items, Names(t, chunks))
    && Grows(WorldAt(a), WorldAt(b))
  }

  /** If everything could be reused, then everything was, and nothing else has changed. In any case no chunk that the
  previous release has was sealed again. */
  ghost predicate ReusedIfPossible(l: Lookup, a: Moment, reuse: ReuseState, out: Output, all: seq<CachedChunk>, k: nat)
    requires k <= |all|
  {
    && (Replay(l, a.reuse, all).Some? ==> Replay(l, a.reuse, all[..k]) == Some(reuse) && out == a.out)
    && out.sealedFor <= a.out.sealedFor + MissingKeys(l, all[..k])
  }

  lemma NothingAdded(t: Tool, a: Moment, kind: SegmentClass, l: Lookup, all: seq<CachedChunk>)
    requires a.items != []
    ensures ChunksAdded(t, a, a, [], kind) && ReusedIfPossible(l, a, a.reuse, a.out, all, 0)
  {
    AddedNone(a.reuse.pending, kind.availability, WorldAt(a));
    GrowsSelf(WorldAt(a));
    assert all[..0] == [];
    assert Names(t, []) == [];
    WithNoIds(a.items);
  }

  /** What one chunk adds. */
  ghost predicate OneAdded(t: Tool, b: Moment, c: Moment, offset: nat, plain: Bytes, kind: SegmentClass)
    requires b.items != []
  {
    && |c.reuse.pending| == |b.reuse.pending| + 1 && c.reuse.pending[..|b.reuse.pending|] == b.reuse.pending
    && c.reuse.pending[|b.reuse.pending|].reference.logicalOffset == offset
    && Home(c.reuse.pending[|b.reuse.pending|], WorldAt(c)) == kind.availability
    && c.plains == b.plains + [plain] && c.ids == b.ids + [t.hash(plain)] && c.items == WithId(b.items, t.hash(plain))
    && Grows(WorldAt(b), WorldAt(c))
  }

  lemma OneMoreAdded(t: Tool, a: Moment, b: Moment, c: Moment, chunks: seq<Bytes>, k: nat, kind: SegmentClass)
    requires a.items != [] && k < |chunks| && ChunksAdded(t, a, b, chunks[..k], kind)
    requires OneAdded(t, b, c, OffsetOf(chunks, k), chunks[k], kind)
    requires forall n :: 0 <= n < |b.reuse.pending| ==> Placed(b.reuse.pending[n], WorldAt(b))
    ensures ChunksAdded(t, a, c, chunks[..k + 1], kind)
  {
    hide Grows, Home, Added, OffsetOf, Placed;
    var p := c.reuse.pending[|b.reuse.pending|];
    AddedOne(a.reuse.pending, b.reuse.pending, p, chunks, k, kind.availability, WorldAt(b), WorldAt(c));
    assert c.reuse.pending == b.reuse.pending + [p];
    GrowsOn(WorldAt(a), WorldAt(b), WorldAt(c));
    assert chunks[..k] + [chunks[k]] == chunks[..k + 1];
    WithOneMoreId(a.items, Names(t, chunks[..k]), t.hash(chunks[k]));
    assert Names(t, chunks[..k]) + [t.hash(chunks[k])] == Names(t, chunks[..k + 1]);
  }

  lemma OneMoreReused(l: Lookup, a: Moment, b: Moment, c: Moment, all: seq<CachedChunk>, k: nat)
    requires k < |all| && ReusedIfPossible(l, a, b.reuse, b.out, all, k)
    requires if ReuseOne(l, b.reuse, all[k]).Some? then ReuseOne(l, b.reuse, all[k]) == Some(c.reuse) && c.out == b.out
             else c.out.sealedFor == b.out.sealedFor + {(all[k].chunkId, l.kind, l.compression)}
    ensures ReusedIfPossible(l, a, c.reuse, c.out, all, k + 1)
  {
    hide ReuseOne, PastOffers;
    ReuseOneExact(l, b.reuse, all[k]);
    OneMoreMissing(l, all, k);
    if Replay(l, a.reuse, all).Some? {
      ReplayPrefix(l, a.reuse, all, k);
    }
  }

  lemma OneMoreMissing(l: Lookup, all: seq<CachedChunk>, k: nat)
    requires k < |all|
    ensures MissingKeys(l, all[..k]) <= MissingKeys(l, all[..k + 1])
    ensures !PastOffers(l, all[k]) ==> (all[k].chunkId, l.kind, l.compression) in MissingKeys(l, all[..k + 1])
  {
    hide PastOffers;
    var few, more := all[..k], all[..k + 1];
    forall key | key in MissingKeys(l, few)
      ensures key in MissingKeys(l, more)
    {
      var j :| 0 <= j < |few| && !PastOffers(l, few[j]) && (few[j].chunkId, l.kind, l.compression) == key;
      assert more[j] == few[j];
    }
    assert more[k] == all[k];
  }

  lemma AllPlaced(c: BuildContext, ids: seq<Bytes>)
    requires c.Holding(ids)
    ensures |c.pending| == |ids| == |c.plains|
    ensures forall n :: 0 <= n < |c.pending| ==> Placed(c.pending[n], c.Here())
  {
    hide Placed, PlainOf, Home;
    forall n | 0 <= n < |c.pending|
      ensures Placed(c.pending[n], c.Here())
    {
      assert Gives(c.pending[n], c.plains[n], Home(c.pending[n], c.Here()), c.Here());
    }
  }

  lemma BlockCount(c: BuildContext)
    requires c.Valid()
    ensures |c.pending| == |c.plains|
  {
    hide Placed;
    AllPlaced(c, c.chunkIds);
  }

  /** Reads up to `capacity` bytes, however few each call of the reader delivers. */
  method ReadChunk(source: SourceFile, position: nat, capacity: nat) returns (r: Result<Bytes>)
    requires position <= |source.body|
    ensures source.readable ==> r.Ok?
    ensures r.Ok? ==> r.value == source.body[position..Min(position + capacity, |source.body|)]
  {
    var body := source.body;
    var buffer: Bytes := [];
    while |buffer| < capacity
      invariant |buffer| <= capacity && position + |buffer| <= |body| && buffer == body[position..position + |buffer|]
      decreases capacity - |buffer|
    {
      var failed: bool := *;
      if failed && !source.readable {
        return Err(Io);
      }
      var limit := Min(capacity - |buffer|, |body| - position - |buffer|);
      if limit == 0 {
        break;
      }
      var read: nat :| 1 <= read <= limit;
      buffer := buffer + body[position + |buffer|..position + |buffer| + read];
    }
    return Ok(buffer);
  }

  /** One chunk of a file in its turn. */
  method AddNextChunk(c: BuildContext, ghost a: Moment, ghost chunks: seq<Bytes>, ghost k: nat, logicalOffset: nat,
                      plaintext: Bytes, kind: SegmentClass, compression: Compression) returns (r: Result<()>)
    requires c.Valid() && a.items != [] && c.fingerprint != [] && k < |chunks| && 0 < |plaintext| <= MAX_BLOCK_PLAIN_LEN
    requires plaintext == chunks[k] && logicalOffset == OffsetOf(chunks, k)
    requires ChunksAdded(c.tool, a, Now(c), chunks[..k], kind)
    requires ReusedIfPossible(c.LookupOf(kind, compression), a, c.Reuse(), c.Out(), ChunkList(c.tool, chunks), k)
    requires c.closed == 0
    modifies c`chunkIds, c`fingerprint, c`currentReuse, c`used, c`pending, c`reusedBlocks, c`plains,
             c`data, c`records, c`active, c`newSegmentBytes, c`manifests, c`kinds, c`newBlocks, c`faults, c`sealedFor
    ensures Adds(c.tool, old(c.data), c.data) && c.faults >= old(c.faults)
    ensures r.Err? ==>
              c.faults > old(c.faults) || Overloaded(|c.tape|, c.options.targetBytes, a.plains + chunks)
    ensures r.Ok? ==> c.Valid() && c.fingerprint != [] && ChunksAdded(c.tool, a, Now(c), chunks[..k + 1], kind)
                      && ReusedIfPossible(c.LookupOf(kind, compression), a, c.Reuse(), c.Out(),
                                          ChunkList(c.tool, chunks), k + 1)
  {
    hide ToolSound, Grows, Home, Added, OffsetOf, Placed, ReuseOne, Adds, ChunksAdded, ReusedIfPossible,
         BuildContext.Holding, Overloaded, ServedOrSealed, PastOffers;
    AllPlaced(c, c.chunkIds);
    ghost var b := Now(c);
    PlainsSoFar(c.tool, a, b, chunks, k, kind);
    r := c.AddChunk(logicalOffset, plaintext, kind, compression);
    if r.Err? && c.faults == old(c.faults) {
      OverloadedMore(|c.tape|, c.options.targetBytes, b.plains + [plaintext], chunks[k + 1..]);
    }
    if r.Ok? {
      OneMoreAdded(c.tool, a, b, Now(c), chunks, k, kind);
      OneMoreReused(c.LookupOf(kind, compression), a, b, Now(c), ChunkList(c.tool, chunks), k);
    }
  }

  lemma PlainsSoFar(t: Tool, a: Moment, b: Moment, chunks: seq<Bytes>, k: nat, kind: SegmentClass)
    requires a.items != [] && k < |chunks| && ChunksAdded(t, a, b, chunks[..k], kind)
    ensures b.plains + [chunks[k]] + chunks[k + 1..] == a.plains + chunks
  {
    hide Added, Grows;
    assert chunks == chunks[..k] + [chunks[k]] + chunks[k + 1..];
  }

  /** Everything a file's chunks may change in a build. */
  ghost predicate AllAdded(c: BuildContext, a: Moment, chunks: seq<Bytes>, kind: SegmentClass, compression: Compression)
    requires a.items != []
    reads c
  {
    && c.Valid() && ChunksAdded(c.tool, a, Now(c), chunks, kind)
    && ReusedIfPossible(c.LookupOf(kind, compression), a, c.Reuse(), c.Out(), ChunkList(c.tool, chunks), |chunks|)
  }

  lemma AllTaken(c: BuildContext, a: Moment, chunks: seq<Bytes>, kind: SegmentClass, compression: Compression, k: nat)
    requires a.items != [] && k == |chunks| && c.Valid() && ChunksAdded(c.tool, a, Now(c), chunks[..k], kind)
    requires ReusedIfPossible(c.LookupOf(kind, compression), a, c.Reuse(), c.Out(), ChunkList(c.tool, chunks), k)
    ensures AllAdded(c, a, chunks, kind, compression)
  {
    assert chunks[..k] == chunks;
  }

  lemma NextFixed(body: Bytes, size: nat, offset: nat)
    requires size > 0 && offset < |body|
    ensures var rest := FixedChunks(body[offset..], size);
            && rest != [] && rest[0] == body[offset..Min(offset + size, |body|)]
            && offset + |rest[0]| <= |body| && rest[1..] == FixedChunks(body[offset + |rest[0]|..], size)
  {
    var tail := body[offset..];
    if |tail| > size {
      assert tail[size..] == body[offset + size..];
    } else {
      assert body[|body|..] == [];
    }
  }

  method AddFixedFile(c: BuildContext, source: SourceFile, size: nat, kind: SegmentClass, compression: Compression)
    returns (r: Result<()>)
    requires c.Valid() && c.fingerprint != [] && 0 < size <= MAX_BLOCK_PLAIN_LEN && c.closed == 0
    modifies c`chunkIds, c`fingerprint, c`currentReuse, c`used, c`pending, c`reusedBlocks, c`plains,
             c`data, c`records, c`active, c`newSegmentBytes, c`manifests, c`kinds, c`newBlocks, c`faults, c`sealedFor
    ensures Adds(c.tool, old(c.data), c.data) && c.faults >= old(c.faults)
    ensures r.Err? ==> c.faults > old(c.faults) || !AsListed(source)
                       || Overloaded(|c.tape|, c.options.targetBytes, old(c.plains) + FixedChunks(source.body, size))
    ensures r.Ok? ==>
              |source.body| == source.len && AllAdded(c, old(Now(c)), FixedChunks(source.body, size), kind, compression)
  {
    hide ToolSound, Adds, ChunksAdded, ReusedIfPossible, BuildContext.Holding, OffsetOf, FixedChunks, Join,
         ChunkList, Overloaded;
    AddsNothing(c.tool, c.data);
    if !source.steady {
      return Err(InvalidInput);
    }
    ghost var a, body, chunks := Now(c), source.body, FixedChunks(source.body, size);
    FixedChunksTile(body, size);
    NothingAdded(c.tool, a, kind, c.LookupOf(kind, compression), ChunkList(c.tool, chunks));
    var logicalOffset := 0;
    ghost var k := 0;
    OffsetZero(chunks);
    assert chunks[..0] == [] && chunks[0..] == chunks && body[0..] == body;
    while true
      invariant k <= |chunks| && logicalOffset == OffsetOf(chunks, k) <= |body|
      invariant chunks[k..] == FixedChunks(body[logicalOffset..], size)
      invariant c.Valid() && c.fingerprint != [] && Adds(c.tool, old(c.data), c.data) && c.faults >= old(c.faults)
      invariant ChunksAdded(c.tool, a, Now(c), chunks[..k], kind)
      invariant ReusedIfPossible(c.LookupOf(kind, compression), a, c.Reuse(), c.Out(), ChunkList(c.tool, chunks), k)
      decreases |body| - logicalOffset
    {
      var read := ReadChunk(source, logicalOffset, size);
      if read.Err? {
        return Err(read.error);
      }
      if read.value == [] {
        break;
      }
      NextFixed(body, size, logicalOffset);
      ghost var rest := chunks[k..];
      assert chunks[k] == rest[0] && chunks[k + 1..] == rest[1..];
      ChunkPlace(chunks, k);
      ghost var before := c.data;
      var added := AddNextChunk(c, a, chunks, k, logicalOffset, read.value, kind, compression);
      AddsOn(c.tool, old(c.data), before, c.data);
      if added.Err? {
        return added;
      }
      logicalOffset := logicalOffset + |read.value|;
      k := k + 1;
    }
    NothingLeft(chunks, k, body, logicalOffset, size);
    if logicalOffset != source.len || !source.steady {
      return Err(InvalidInput);
    }
    AllTaken(c, a, chunks, kind, compression, k);
    return Ok(());
  }

  lemma OffsetZero(chunks: seq<Bytes>)
    ensures OffsetOf(chunks, 0) == 0
  {
    assert chunks[..0] == [];
  }

  lemma NothingLeft(chunks: seq<Bytes>, k: nat, body: Bytes, offset: nat, size: nat)
    requires k <= |chunks| && offset <= |body| && size > 0 && chunks[k..] == FixedChunks(body[offset..], size)
    requires body[offset..Min(offset + size, |body|)] == []
    ensures k == |chunks| && offset == |body|
  {
    assert Min(offset + size, |body|) == offset;
  }

  lemma ExtendsOn(a: map<Bytes, Bytes>, b: map<Bytes, Bytes>, c: map<Bytes, Bytes>)
    requires Extends(a, b) && Extends(b, c)
    ensures Extends(a, c)
  {
  }

  method AddContentDefinedFile(c: BuildContext, source: SourceFile, kind: SegmentClass, compression: Compression)
    returns (r: Result<()>)
    requires c.Valid() && c.fingerprint != [] && c.closed == 0
    modifies c`chunkIds, c`fingerprint, c`currentReuse, c`used, c`pending, c`reusedBlocks, c`plains,
             c`data, c`records, c`active, c`newSegmentBytes, c`manifests, c`kinds, c`newBlocks, c`faults, c`sealedFor
    ensures Adds(c.tool, old(c.data), c.data) && c.faults >= old(c.faults)
    ensures SumOf(c.tool.cut(source.body)) == |source.body|
    ensures r.Err? ==>
              c.faults > old(c.faults) || !AsListed(source)
              || Overloaded(|c.tape|, c.options.targetBytes,
                            old(c.plains) + CutChunks(source.body, c.tool.cut(source.body)))
    ensures r.Ok? ==> |source.body| == source.len == SumOf(c.tool.cut(source.body))
                      && AllAdded(c, old(Now(c)), CutChunks(source.body, c.tool.cut(source.body)), kind, compression)
  {
    hide ToolSound, Adds, ChunksAdded, ReusedIfPossible, BuildContext.Holding, OffsetOf, CutChunks, SumOf, Join,
         ChunkList, Overloaded;
    AddsNothing(c.tool, c.data);
    CutsWhole(c, source.body);
    if !source.steady {
      return Err(InvalidInput);
    }
    var read := ReadChunk(source, 0, source.len + 1);
    if read.Err? {
      return Err(read.error);
    }
    var bytes := read.value;
    if |bytes| != source.len || !source.steady {
      return Err(InvalidInput);
    }
    assert bytes == source.body;
    var lens := c.tool.cut(bytes);
    CutChunksTile(bytes, lens);
    ghost var a, chunks := Now(c), CutChunks(bytes, lens);
    NothingAdded(c.tool, a, kind, c.LookupOf(kind, compression), ChunkList(c.tool, chunks));
    var offset := 0;
    OffsetZero(chunks);
    assert chunks[..0] == [] && chunks[0..] == chunks && bytes[0..] == bytes && lens[0..] == lens;
    for k := 0 to |lens|
      invariant k + |lens[k..]| == |lens| && |chunks| == |lens| && offset == OffsetOf(chunks, k) <= |bytes|
      invariant SumOf(lens[k..]) == |bytes[offset..]| && chunks[k..] == CutChunks(bytes[offset..], lens[k..])
      invariant c.Valid() && c.fingerprint != [] && Adds(c.tool, old(c.data), c.data) && c.faults >= old(c.faults)
      invariant ChunksAdded(c.tool, a, Now(c), chunks[..k], kind)
      invariant ReusedIfPossible(c.LookupOf(kind, compression), a, c.Reuse(), c.Out(), ChunkList(c.tool, chunks), k)
    {
      NextCut(bytes, lens, offset, k);
      ghost var rest := chunks[k..];
      assert chunks[k] == rest[0] && chunks[k + 1..] == rest[1..];
      ChunkPlace(chunks, k);
      ghost var before := c.data;
      var added := AddNextChunk(c, a, chunks, k, offset, bytes[offset..offset + lens[k]], kind, compression);
      AddsOn(c.tool, old(c.data), before, c.data);
      if added.Err? {
        return added;
      }
      offset := offset + lens[k];
    }
    AllTaken(c, a, chunks, kind, compression, |lens|);
    return Ok(());
  }

  lemma CutsWhole(c: BuildContext, bytes: Bytes)
    requires c.Valid()
    ensures CutsAll(c.tool.cut(bytes), |bytes|) && SumOf(c.tool.cut(bytes)) == |bytes|
    ensures |CutChunks(bytes, c.tool.cut(bytes))| == |c.tool.cut(bytes)|
  {
    hide BlocksOk, CurrentOk, SegmentsOk, NoneEmpty, AllReferenced, LibraryOk, ReuseOk, Frugal, SealedOnce,
         NamedByContent;
    assert CutsAll(c.tool.cut(bytes), |bytes|);
    CutCount(bytes, c.tool.cut(bytes));
  }

  lemma {:induction false} CutCount(body: Bytes, lens: seq<nat>)
    requires SumOf(lens) == |body|
    ensures |CutChunks(body, lens)| == |lens|
    decreases lens
  {
    if lens != [] {
      CutCount(body[lens[0]..], lens[1..]);
    }
  }

  lemma NextCut(bytes: Bytes, lens: seq<nat>, offset: nat, k: nat)
    requires k < |lens| && offset <= |bytes| && SumOf(lens[k..]) == |bytes[offset..]|
    ensures offset + lens[k] <= |bytes| && SumOf(lens[k + 1..]) == |bytes[offset + lens[k]..]|
    ensures CutChunks(bytes[offset..], lens[k..])
         == [bytes[offset..offset + lens[k]]] + CutChunks(bytes[offset + lens[k]..], lens[k + 1..])
  {
    assert lens[k..][0] == lens[k] && lens[k..][1..] == lens[k + 1..];
    assert bytes[offset..][lens[k]..] == bytes[offset + lens[k]..];
    assert bytes[offset..][..lens[k]] == bytes[offset..offset + lens[k]];
  }

  // ------------------------------------------------------------ the development cache

  function ClassOf(t: Tool, options: Options, source: SourceFile): SegmentClass {
    SegmentClass(options.AvailabilityOf(source.path), Classify(t, source).access)
  }

  /** The chunks follow one another without gap from `offset` to `end`, and none is empty. */
  predicate Contiguous(chunks: seq<CachedChunk>, offset: nat, end: nat)
    decreases chunks
  {
    if chunks == [] then offset == end
    else
      && chunks[0].logicalOffset == offset && chunks[0].plainLen > 0 && offset + chunks[0].plainLen < U64_LIMIT
      && Contiguous(chunks[1..], offset + chunks[0].plainLen, end)
  }

  predicate EntryMatches(t: Tool, options: Options, source: SourceFile, e: CachedEntry) {
    var c := Classify(t, source);
    && e.stamp == source.stamp && e.layout == c.layout && e.fixedBlockLen == c.fixedBlockLen
    && e.availability == options.AvailabilityOf(source.path) && e.access == c.access && e.compression == c.compression
  }

  /** Whether every chunk could be served without reading the source. */
  ghost predicate Replayable(l: Lookup, s: ReuseState, chunks: seq<CachedChunk>, k: nat)
    requires k <= |chunks|
  {
    forall j :: k <= j < |chunks| ==> ReuseOne(l, s, chunks[j]).Some?
  }

  method CachedEntryUsable(c: BuildContext, source: SourceFile, e: CachedEntry) returns (usable: bool)
    ensures usable <==> EntryMatches(c.tool, c.options, source, e) && Contiguous(e.chunks, 0, source.len)
                        && Replayable(c.LookupOf(ClassOf(c.tool, c.options, source), e.compression), c.Reuse(),
                                      e.chunks, 0)
  {
    var style := Classify(c.tool, source);
    var availability := c.options.AvailabilityOf(source.path);
    if e.stamp != source.stamp || e.layout != style.layout || e.fixedBlockLen != style.fixedBlockLen
       || e.availability != availability || e.access != style.access || e.compression != style.compression
    {
      return false;
    }
    ghost var l := c.LookupOf(ClassOf(c.tool, c.options, source), e.compression);
    var expectedOffset: nat := 0;
    assert e.chunks[0..] == e.chunks;
    for k := 0 to |e.chunks|
      invariant Contiguous(e.chunks, 0, source.len) <==> Contiguous(e.chunks[k..], expectedOffset, source.len)
      invariant forall j :: 0 <= j < k ==> ReuseOne(l, c.Reuse(), e.chunks[j]).Some?
    {
      var chunk := e.chunks[k];
      assert e.chunks[k..][0] == chunk && e.chunks[k..][1..] == e.chunks[k + 1..];
      if chunk.logicalOffset != expectedOffset || chunk.plainLen == 0 {
        return false;
      }
      if expectedOffset + chunk.plainLen >= U64_LIMIT {
        return false;
      }
      expectedOffset := expectedOffset + chunk.plainLen;
      var key, past := (chunk.chunkId, SegmentClass(availability, style.access)), (chunk.chunkId, availability);
      var current := key in c.currentReuse && c.currentReuse[key].reference.plainLen == chunk.plainLen
                     && style.compression.Accepts(c.currentReuse[key].reference.codec);
      var existing := past in c.reuseIndex && c.reuseIndex[past].block.plainLen == chunk.plainLen
                      && style.compression.Accepts(c.reuseIndex[past].block.codec)
                      && c.reuseIndex[past].segmentOrdinal < |c.reuseSegments|;
      if !current && !existing {
        return false;
      }
    }
    return expectedOffset == source.len;
  }

  lemma GivesLength(p: PendingBlock, plain: Bytes, availability: Availability, w: World)
    requires Gives(p, plain, availability, w)
    ensures p.reference.plainLen == |plain|
  {
  }

  /** Reusing one chunk does not take away another. */
  lemma StillOffered(l: Lookup, s: ReuseState, chunk: CachedChunk, other: CachedChunk)
    requires ReuseOne(l, s, chunk).Some? && ReuseOne(l, s, other).Some?
    requires chunk.chunkId == other.chunkId ==> chunk.plainLen == other.plainLen
    ensures ReuseOne(l, ReuseOne(l, s, chunk).value, other).Some?
  {
  }

  /** Replays a usable entry. The error for a block that has gone missing is never reached. */
  method ReplayCached(c: BuildContext, all: seq<CachedChunk>, kind: SegmentClass, compression: Compression,
                      ghost chunks: seq<Bytes>)
    returns (r: Result<()>)
    requires c.Valid() && c.fingerprint != [] && all == ChunkList(c.tool, chunks)
    requires Replayable(c.LookupOf(kind, compression), c.Reuse(), all, 0)
    modifies c`chunkIds, c`fingerprint, c`currentReuse, c`used, c`pending, c`reusedBlocks, c`plains
    ensures r.Ok? && AllAdded(c, old(Now(c)), chunks, kind, compression)
    ensures Replay(c.LookupOf(kind, compression), old(c.Reuse()), all).Some?
  {
    hide ToolSound, ChunksAdded, ReusedIfPossible, BuildContext.Holding, Join, ReuseOne, Replay, ReplayedTo, Replayable,
         ChunkList;
    ghost var a := Now(c);
    ghost var l := c.LookupOf(kind, compression);
    ReplayBegins(c, l, all, chunks, kind);
    for k := 0 to |all|
      invariant ReplayedTo(c, a, l, all, chunks, kind, k)
      invariant c.LookupOf(kind, compression) == l
    {
      var reused := ReplayChunk(c, a, l, all, chunks, kind, compression, k);
      if reused.Err? || !reused.value {
        return Err(InvalidInput);
      }
    }
    ReplayEnds(c, a, all, chunks, kind, compression);
    return Ok(());
  }

  /** The first `k` chunks have been replayed, and the rest is still on offer. */
  ghost predicate ReplayedTo(c: BuildContext, a: Moment, l: Lookup, all: seq<CachedChunk>, chunks: seq<Bytes>,
                             kind: SegmentClass, k: nat)
    reads c
  {
    && a.items != [] && k <= |all| == |chunks| && c.fingerprint != [] && all == ChunkList(c.tool, chunks)
    && ChunksAdded(c.tool, a, Now(c), chunks[..k], kind) && ReusedIfPossible(l, a, c.Reuse(), c.Out(), all, k)
    && Replayable(l, c.Reuse(), all, k) && Replay(l, a.reuse, all[..k]) == Some(c.Reuse()) && c.Valid()
  }

  lemma ReplayBegins(c: BuildContext, l: Lookup, all: seq<CachedChunk>, chunks: seq<Bytes>, kind: SegmentClass)
    requires c.Valid() && c.fingerprint != [] && all == ChunkList(c.tool, chunks) && Replayable(l, c.Reuse(), all, 0)
    ensures ReplayedTo(c, Now(c), l, all, chunks, kind, 0)
  {
    hide ToolSound, ChunksAdded, ReusedIfPossible, BuildContext.Holding, Replayable, Replay;
    ToolOf(c);
    NothingAdded(c.tool, Now(c), kind, l, all);
    NothingReplayed(l, c.Reuse());
    assert chunks[..0] == [] && all[..0] == [];
  }

  lemma ReplayEnds(c: BuildContext, a: Moment, all: seq<CachedChunk>, chunks: seq<Bytes>, kind: SegmentClass,
                   compression: Compression)
    requires ReplayedTo(c, a, c.LookupOf(kind, compression), all, chunks, kind, |all|)
    ensures AllAdded(c, a, chunks, kind, compression)
    ensures Replay(c.LookupOf(kind, compression), a.reuse, all).Some?
  {
    hide ToolSound, ChunksAdded, ReusedIfPossible, BuildContext.Holding, Replayable, Replay;
    assert all[..|all|] == all;
    AllTaken(c, a, chunks, kind, compression, |all|);
  }

  /** One chunk of the entry: its name is recorded and its block reused. */
  method ReplayChunk(c: BuildContext, ghost a: Moment, ghost l: Lookup, all: seq<CachedChunk>, ghost chunks: seq<Bytes>,
                     kind: SegmentClass, compression: Compression, k: nat)
    returns (reused: Result<bool>)
    requires ReplayedTo(c, a, l, all, chunks, kind, k) && k < |all| && l == c.LookupOf(kind, compression)
    modifies c`chunkIds, c`fingerprint, c`currentReuse, c`used, c`pending, c`reusedBlocks, c`plains
    ensures reused == Ok(true) && ReplayedTo(c, a, l, all, chunks, kind, k + 1)
  {
    hide ToolSound, ChunksAdded, ReusedIfPossible, BlocksOk, CurrentOk, SegmentsOk, AllReferenced, NoneEmpty, LibraryOk,
         ReuseOk, UsedOk, TapeOk, NamesDistinct, OffsetOf, Join, ReuseOne, Replay, Replayable, Grows, Home, Frugal,
         SealedOnce, NamedByContent;
    var chunk := all[k];
    ghost var b := Now(c);
    AllPlaced(c, c.chunkIds);
    OthersStillOffered(c.tool, l, c.Reuse(), chunks, k);
    ReplayOneMore(l, a.reuse, all, k);
    c.RecordChunk(chunk.chunkId);
    assert c.chunkIds[..|c.chunkIds| - 1] == b.ids;
    reused := c.TryReuseChunk(chunk.logicalOffset, chunk.plainLen, chunk.chunkId, kind, compression, chunks[k]);
    OneMoreAdded(c.tool, a, b, Now(c), chunks, k, kind);
    OneMoreReused(l, a, b, Now(c), all, k);
  }

  lemma NothingReplayed(l: Lookup, s: ReuseState)
    ensures Replay(l, s, []) == Some(s)
  {
  }

  lemma ReplayOneMore(l: Lookup, s: ReuseState, all: seq<CachedChunk>, k: nat)
    requires k < |all| && Replay(l, s, all[..k]).Some?
    ensures Replay(l, s, all[..k + 1]) == ReuseOne(l, Replay(l, s, all[..k]).value, all[k])
  {
    assert all[..k + 1][..k] == all[..k];
  }

  lemma OthersStillOffered(t: Tool, l: Lookup, s: ReuseState, chunks: seq<Bytes>, k: nat)
    requires ToolSound(t) && k < |chunks| && Replayable(l, s, ChunkList(t, chunks), k)
    ensures ReuseOne(l, s, ChunkList(t, chunks)[k]).Some?
    ensures Replayable(l, ReuseOne(l, s, ChunkList(t, chunks)[k]).value, ChunkList(t, chunks), k + 1)
  {
    hide ToolSound, ReuseOne, OffsetOf;
    var all := ChunkList(t, chunks);
    forall j | k + 1 <= j < |all|
      ensures ReuseOne(l, ReuseOne(l, s, all[k]).value, all[j]).Some?
    {
      if all[k].chunkId == all[j].chunkId {
        SameHash(t, chunks[k], chunks[j]);
      }
      StillOffered(l, s, all[k], all[j]);
    }
  }

  /** If each chunk of a file can be reused, then all of them can, one after the other. */
  lemma {:induction false} ReplayableReplays(t: Tool, l: Lookup, s: ReuseState, chunks: seq<Bytes>, k: nat)
    requires ToolSound(t) && k <= |chunks| && Replayable(l, s, ChunkList(t, chunks), 0)
    ensures var next := Replay(l, s, ChunkList(t, chunks)[..k]);
            next.Some? && Replayable(l, next.value, ChunkList(t, chunks), k)
    decreases k
  {
    hide ToolSound, ReuseOne;
    if k > 0 {
      ReplayableReplays(t, l, s, chunks, k - 1);
      ReplayOneMore(l, s, ChunkList(t, chunks), k - 1);
      OthersStillOffered(t, l, Replay(l, s, ChunkList(t, chunks)[..k - 1]).value, chunks, k - 1);
    }
  }

  // ------------------------------------------------------------------- whole files

  /** The file can be opened and read and is as it was listed. */
  predicate AsListed(source: SourceFile) {
    source.steady && source.readable && |source.body| == source.len
  }

  /** The file can be packed: a file listed as empty always can. */
  predicate Packable(source: SourceFile) {
    source.len > 0 ==> AsListed(source)
  }

  /** The development cache has the file as it is, and the previous release a block for each of its chunks: the file
  need not be opened. */
  ghost predicate Spared(t: Tool, l: Lookup, options: Options, source: SourceFile, cached: Option<CachedEntry>) {
    && source.len > 0 && cached.Some? && EntryMatches(t, options, source, cached.value)
    && Contiguous(cached.value.chunks, 0, source.len) && AllPast(l, cached.value.chunks)
  }

  predicate AllPast(l: Lookup, chunks: seq<CachedChunk>) {
    forall j :: 0 <= j < |chunks| ==> PastOffers(l, chunks[j])
  }

  lemma SparedIsReplayable(t: Tool, l: Lookup, options: Options, source: SourceFile, cached: Option<CachedEntry>,
                           s: ReuseState)
    requires Spared(t, l, options, source, cached)
    ensures Replayable(l, s, cached.value.chunks, 0)
  {
    forall j | 0 <= j < |cached.value.chunks|
      ensures ReuseOne(l, s, cached.value.chunks[j]).Some?
    {
      ReuseOneExact(l, s, cached.value.chunks[j]);
    }
  }

  /** Too many blocks are too much by any measure. */
  lemma ManyAreOverloaded(draws: nat, configured: nat, plains: seq<Bytes>, more: seq<Bytes>)
    ensures |plains| >= U32_LIMIT || |more| >= U32_LIMIT ==> Overloaded(draws, configured, plains + more)
  {
  }

  /** What the asset of a source file is to contain: a file listed as empty is not opened. */
  function ContentOf(source: SourceFile): Bytes {
    if source.len == 0 then [] else source.body
  }

  /** A file that was listed as empty and has grown since: nothing of it is packed. */
  lemma GrownFileMissed(t: Tool, path: Bytes, stamp: Stamp)
    requires ToolSound(t)
    ensures var source := SourceFile(path, 0, stamp, [0x48], false, true);
            ChunksOf(t, source) == [] && |ContentOf(source)| == source.len && ContentOf(source) != source.body
  {
    assert CutsAll(t.cut([]), 0);
  }

  function ChunksOf(t: Tool, source: SourceFile): seq<Bytes>
    requires ToolSound(t)
  {
    assert CutsAll(t.cut(ContentOf(source)), |ContentOf(source)|);
    if source.len == 0 then [] else Chunks(t, Classify(t, source), source.body)
  }

  lemma ChunksOfTile(t: Tool, source: SourceFile)
    requires ToolSound(t)
    ensures ChunksTile(Classify(t, source), ChunksOf(t, source), ContentOf(source))
  {
    if source.len > 0 {
      ChunkingTiles(t, Classify(t, source), source.body);
    }
  }

  function ItemOf(t: Tool, options: Options, source: SourceFile): FileItem
    requires ToolSound(t)
  {
    var style, chunks := Classify(t, source), ChunksOf(t, source);
    FileItem(source.path, source.len, style.layout, style.access, options.AvailabilityOf(source.path),
             style.compression, style.fixedBlockLen, Names(t, chunks), |chunks|)
  }

  function RecordOf(t: Tool, source: SourceFile, pathOffset: nat, firstBlock: nat): FileRecord
    requires ToolSound(t)
  {
    var style := Classify(t, source);
    FileRecord(pathOffset, |source.path|, style.layout, style.access, source.len, firstBlock, |ChunksOf(t, source)|,
               style.fixedBlockLen)
  }

  /** What adding a file does to the blocks, whichever way its chunks are obtained. */
  ghost predicate FileAdded(c: BuildContext, a: Moment, source: SourceFile)
    requires ToolSound(c.tool)
    reads c
  {
    var chunks, kind := ChunksOf(c.tool, source), ClassOf(c.tool, c.options, source);
    && |ContentOf(source)| == source.len
    && Added(a.reuse.pending, c.pending, chunks, kind.availability, c.Here())
    && c.plains == a.plains + chunks && c.chunkIds == a.ids + Names(c.tool, chunks) && Grows(WorldAt(a), c.Here())
    && ReusedIfPossible(c.LookupOf(kind, Classify(c.tool, source).compression), a, c.Reuse(), c.Out(),
                        ChunkList(c.tool, chunks), |chunks|)
  }

  lemma Usable(c: BuildContext, source: SourceFile, e: CachedEntry)
    requires ToolSound(c.tool) && source.len > 0 && EntryTrue(c.tool, source, e)
    requires EntryMatches(c.tool, c.options, source, e) && Contiguous(e.chunks, 0, source.len)
    ensures e.chunks == ChunkList(c.tool, ChunksOf(c.tool, source)) && |source.body| == source.len
  {
    var chunks := ChunksOf(c.tool, source);
    ChunksOfTile(c.tool, source);
    assert e.chunks[0..] == e.chunks && chunks[..|chunks|] == chunks;
    OffsetZero(chunks);
    ContiguousEnd(c.tool, chunks, 0, source.len);
  }

  lemma {:induction false} ContiguousEnd(t: Tool, chunks: seq<Bytes>, k: nat, end: nat)
    requires k <= |chunks| && Contiguous(ChunkList(t, chunks)[k..], OffsetOf(chunks, k), end)
    ensures end == |Join(chunks)|
    decreases |chunks| - k
  {
    var all := ChunkList(t, chunks);
    if k < |chunks| {
      assert all[k..][0] == all[k] && all[k..][1..] == all[k + 1..];
      ChunkPlace(chunks, k);
      ContiguousEnd(t, chunks, k + 1, end);
    } else {
      assert chunks[..k] == chunks;
    }
  }

  /** Replaying the development cache and packing the source, both from one moment, end in one moment: the same
  pending blocks, chunk names, fingerprint, counters, segments and data, whenever the entry is usable. */
  lemma ReplayEqualsPacking(t: Tool, l: Lookup, a: Moment, replayed: Moment, packed: Moment, chunks: seq<Bytes>,
                            kind: SegmentClass)
    requires a.items != [] && replayed.library == packed.library
    requires ChunksAdded(t, a, replayed, chunks, kind) && ChunksAdded(t, a, packed, chunks, kind)
    requires ReusedIfPossible(l, a, replayed.reuse, replayed.out, ChunkList(t, chunks), |chunks|)
    requires ReusedIfPossible(l, a, packed.reuse, packed.out, ChunkList(t, chunks), |chunks|)
    requires ToolSound(t) && Replayable(l, a.reuse, ChunkList(t, chunks), 0)
    ensures replayed == packed
  {
    hide ToolSound, Replay, ReuseOne, Added, Grows, OffsetOf;
    ReplayableReplays(t, l, a.reuse, chunks, |chunks|);
    assert ChunkList(t, chunks)[..|chunks|] == ChunkList(t, chunks);
  }

  /** The file can be read as it was listed, or need not be read. */
  ghost predicate Addable(c: BuildContext, source: SourceFile, cached: Option<CachedEntry>)
    reads c
  {
    Packable(source)
    || Spared(c.tool, c.LookupOf(ClassOf(c.tool, c.options, source), Classify(c.tool, source).compression), c.options,
              source, cached)
  }

  /** The chunks of a file, from the development cache where its entry is usable, else from the source. */
  method AddChunks(c: BuildContext, source: SourceFile, cached: Option<CachedEntry>) returns (r: Result<()>)
    requires c.Valid() && c.fingerprint != [] && c.closed == 0
    requires cached.Some? && source.len > 0 ==> EntryTrue(c.tool, source, cached.value)
    modifies c`chunkIds, c`fingerprint, c`currentReuse, c`used, c`pending, c`reusedBlocks, c`plains,
             c`data, c`records, c`active, c`newSegmentBytes, c`manifests, c`kinds, c`newBlocks, c`faults, c`sealedFor
    ensures Adds(c.tool, old(c.data), c.data) && c.faults >= old(c.faults)
    ensures r.Err? ==> c.faults > old(c.faults) || !Addable(c, source, cached)
                       || Overloaded(|c.tape|, c.options.targetBytes, old(c.plains) + ChunksOf(c.tool, source))
    ensures r.Ok? ==> |ContentOf(source)| == source.len
                      && AllAdded(c, old(Now(c)), ChunksOf(c.tool, source), ClassOf(c.tool, c.options, source),
                                  Classify(c.tool, source).compression)
  {
    hide BlocksOk, CurrentOk, SegmentsOk, AllReferenced, NoneEmpty, LibraryOk, ReuseOk, UsedOk, TapeOk, NamesDistinct,
         ReuseOne, ChunksAdded, ReusedIfPossible, Adds, FixedChunks, CutChunks, ChunkList, Contiguous, Overloaded,
         Frugal, SealedOnce, NamedByContent;
    AddsNothing(c.tool, c.data);
    var style, kind := Classify(c.tool, source), ClassOf(c.tool, c.options, source);
    assert ClassOk(style);
    if source.len == 0 {
      NothingAdded(c.tool, Now(c), kind, c.LookupOf(kind, style.compression), ChunkList(c.tool, []));
      return Ok(());
    }
    if cached.Some? {
      if Spared(c.tool, c.LookupOf(kind, style.compression), c.options, source, cached) {
        SparedIsReplayable(c.tool, c.LookupOf(kind, style.compression), c.options, source, cached, c.Reuse());
      }
      var usable := CachedEntryUsable(c, source, cached.value);
      if usable {
        Usable(c, source, cached.value);
        r := ReplayCached(c, cached.value.chunks, kind, style.compression, ChunksOf(c.tool, source));
        return;
      }
    }
    match style.layout {
      case Fixed => r := AddFixedFile(c, source, style.fixedBlockLen, kind, style.compression);
      case ContentDefined => r := AddContentDefinedFile(c, source, kind, style.compression);
    }
  }

  lemma FileDone(t: Tool, l: Lookup, a: Moment, b: Moment, e: Moment, chunks: seq<Bytes>, kind: SegmentClass,
                 last: FileItem)
    requires b.items != [] && b == a.(items := b.items) && b.items[..|b.items| - 1] == a.items
    requires b.items[|b.items| - 1].ids == []
    requires ChunksAdded(t, b, e, chunks, kind)
    requires ReusedIfPossible(l, b, e.reuse, e.out, ChunkList(t, chunks), |chunks|)
    requires e.items != [] && last == e.items[|e.items| - 1]
    ensures |e.reuse.pending| == |a.reuse.pending| + |chunks|
    ensures Added(a.reuse.pending, e.reuse.pending, chunks, kind.availability, WorldAt(e))
    ensures Grows(WorldAt(a), WorldAt(e))
    ensures e.plains == a.plains + chunks && e.ids == a.ids + Names(t, chunks)
    ensures ReusedIfPossible(l, a, e.reuse, e.out, ChunkList(t, chunks), |chunks|)
    ensures e.items[..|e.items| - 1] == a.items && last == b.items[|b.items| - 1].(ids := Names(t, chunks))
  {
    hide Grows, Home, OffsetOf;
  }

  lemma ToolOf(c: BuildContext)
    requires c.Valid()
    ensures ToolSound(c.tool)
  {
    hide ToolSound, BlocksOk, CurrentOk, SegmentsOk, AllReferenced, NoneEmpty, LibraryOk, ReuseOk, UsedOk, TapeOk,
         NamesDistinct, Frugal, SealedOnce, NamedByContent;
  }

  method BeginFile(c: BuildContext, item: FileItem)
    requires c.Valid()
    modifies c`pathPool, c`filePaths, c`fingerprint
    ensures c.Valid() && c.pathPool == old(c.pathPool) + item.path && c.filePaths == old(c.filePaths) + [item.path]
    ensures c.fingerprint == old(c.fingerprint) + [item]
  {
    hide BlocksOk, CurrentOk, SegmentsOk, AllReferenced, NoneEmpty, LibraryOk, ReuseOk, UsedOk, TapeOk, NamesDistinct,
         ToolSound, Frugal, SealedOnce, NamedByContent;
    c.pathPool := c.pathPool + item.path;
    c.filePaths := c.filePaths + [item.path];
    c.fingerprint := c.fingerprint + [item];
  }

  method EndFile(c: BuildContext, record: FileRecord, ghost a: Moment, ghost source: SourceFile)
    requires c.Valid() && c.fingerprint != [] && FileAdded(c, a, source)
    modifies c`fileRecords, c`fingerprint
    ensures FileAdded(c, a, source)
    ensures c.Valid() && c.fileRecords == old(c.fileRecords) + [record]
    ensures var last := |old(c.fingerprint)| - 1;
            c.fingerprint == old(c.fingerprint)[..last] + [old(c.fingerprint)[last].(blockCount := record.blockCount)]
  {
    hide BlocksOk, CurrentOk, SegmentsOk, AllReferenced, NoneEmpty, LibraryOk, ReuseOk, UsedOk, TapeOk, NamesDistinct,
         ToolSound, Frugal, SealedOnce, NamedByContent, ReusedIfPossible, ChunksOf, Added, Grows, ChunkList, Names;
    var last := |c.fingerprint| - 1;
    c.fingerprint := c.fingerprint[last := c.fingerprint[last].(blockCount := record.blockCount)];
    c.fileRecords := c.fileRecords + [record];
  }

  /** Adds the chunks of a file whose item has just been begun, and its record. */
  method AddBody(c: BuildContext, source: SourceFile, cached: Option<CachedEntry>, record: FileRecord, ghost a: Moment)
    returns (r: Result<()>)
    requires c.Valid() && c.fingerprint != [] && c.closed == 0 && Now(c) == a.(items := c.fingerprint)
    requires c.fingerprint[..|c.fingerprint| - 1] == a.items && c.fingerprint[|c.fingerprint| - 1].ids == []
    requires cached.Some? && source.len > 0 ==> EntryTrue(c.tool, source, cached.value)
    modifies c`chunkIds, c`fingerprint, c`currentReuse, c`used, c`pending, c`reusedBlocks, c`plains, c`fileRecords,
             c`data, c`records, c`active, c`newSegmentBytes, c`manifests, c`kinds, c`newBlocks, c`faults, c`sealedFor
    ensures Adds(c.tool, old(c.data), c.data) && c.faults >= old(c.faults)
    ensures r.Err? ==> c.faults > old(c.faults) || !Addable(c, source, cached)
                       || Overloaded(|c.tape|, c.options.targetBytes, a.plains + ChunksOf(c.tool, source))
    ensures r.Ok? ==> c.Valid() && FileAdded(c, a, source)
    ensures r.Ok? ==> c.fileRecords == old(c.fileRecords) + [record.(blockCount := |ChunksOf(c.tool, source)|)]
    ensures r.Ok? ==>
              c.fingerprint == a.items + [old(c.fingerprint)[|old(c.fingerprint)| - 1]
                                            .(ids := Names(c.tool, ChunksOf(c.tool, source)),
                                              blockCount := |ChunksOf(c.tool, source)|)]
  {
    hide BuildContext.Holding, ToolSound, ReusedIfPossible, Adds, ChunksOf, Added, Grows, ChunkList, EntryTrue,
         Names, Home, Replay, ReuseOne, Overloaded;
    ToolOf(c);
    BlockCount(c);
    ManyAreOverloaded(|c.tape|, c.options.targetBytes, c.plains, ChunksOf(c.tool, source));
    ghost var begun := Now(c);
    var firstBlock := |c.pending|;
    r := AddChunks(c, source, cached);
    if r.Err? {
      return;
    }
    FileDone(c.tool, c.LookupOf(ClassOf(c.tool, c.options, source), Classify(c.tool, source).compression), a, begun,
             Now(c), ChunksOf(c.tool, source), ClassOf(c.tool, c.options, source),
             c.fingerprint[|c.fingerprint| - 1]);
    var blockCount := |c.pending| - firstBlock;
    if blockCount >= U32_LIMIT {
      return Err(InvalidInput);
    }
    EndFile(c, record.(blockCount := blockCount), a, source);
  }

  /** Adds one source file: its path, its chunks, its record and its part of the fingerprint. The outcome
  does not depend on whether the chunks came from the source or from the development cache. */
  method AddFile(c: BuildContext, source: SourceFile, cached: Option<CachedEntry>) returns (r: Result<()>)
    requires c.Valid() && c.closed == 0
    requires cached.Some? && source.len > 0 ==> EntryTrue(c.tool, source, cached.value)
    modifies c
    ensures Adds(c.tool, old(c.data), c.data) && c.faults >= old(c.faults) && c.closed == 0
    ensures r.Err? ==> c.faults > old(c.faults) || !Addable(c, source, cached) || |source.path| >= U16_LIMIT
                       || |old(c.pathPool)| >= U32_LIMIT
                       || Overloaded(|c.tape|, c.options.targetBytes, old(c.plains) + ChunksOf(c.tool, source))
    ensures r.Ok? ==> c.Valid() && FileAdded(c, old(Now(c)), source)
    ensures r.Ok? ==> |old(c.pathPool)| < U32_LIMIT && |old(c.pending)| < U32_LIMIT && |source.path| < U16_LIMIT
    ensures r.Ok? ==>
              c.fileRecords == old(c.fileRecords) + [RecordOf(c.tool, source, |old(c.pathPool)|, |old(c.pending)|)]
    ensures r.Ok? ==> c.filePaths == old(c.filePaths) + [source.path] && c.pathPool == old(c.pathPool) + source.path
    ensures r.Ok? ==> c.fingerprint == old(c.fingerprint) + [ItemOf(c.tool, c.options, source)]
  {
    hide BuildContext.Holding, ToolSound, ReusedIfPossible, Adds, ChunksOf, Added, Grows, ChunkList, EntryTrue,
         Names, Home, Replay, ReuseOne, Overloaded, FileAdded, Addable,
         Classify, BuildContext.Valid;
    AddsNothing(c.tool, c.data);
    ToolOf(c);
    ghost var start := Now(c);
    var style := Classify(c.tool, source);
    var availability := c.options.AvailabilityOf(source.path);
    var firstBlock, pathOffset := |c.pending|, |c.pathPool|;
    BlockCount(c);
    ManyAreOverloaded(|c.tape|, c.options.targetBytes, c.plains, ChunksOf(c.tool, source));
    if firstBlock >= U32_LIMIT || pathOffset >= U32_LIMIT || |source.path| >= U16_LIMIT {
      return Err(InvalidInput);
    }
    BeginFile(c, FileItem(source.path, source.len, style.layout, style.access, availability, style.compression,
                          style.fixedBlockLen, [], 0));
    r := AddBody(c, source, cached, FileRecord(pathOffset, |source.path|, style.layout, style.access, source.len,
                                               firstBlock, 0, style.fixedBlockLen), start);
  }
}
