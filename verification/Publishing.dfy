/** Whole builds over an output directory, one after the other. */
module Publishing {
  import opened Basics
  import SetSums
  import opened Records
  import opened Pages
  import opened BlockStore
  import opened Sources
  import opened SegmentStore
  import opened Placement
  import opened Rotation
  import opened Builds
  import opened Packing
  import opened Releases
  import opened Assets
  import opened Storage
  import opened AssetReader
  import opened Sessions
  import opened DevelopmentCaches
  import opened Printing
  import opened Opening
  import opened Comparing
  import opened Limits
  import BuildCacheFile
  import Compaction
  import PathIndex

  /** Adds all source files in order. */
  method PackFiles(c: BuildContext, sources: seq<SourceFile>, entries: CacheEntries) returns (r: Result<()>)
    requires ToolSound(c.tool) && Packed(c, []) && EntriesTrue(c.tool, entries, sources)
    requires forall i :: 0 <= i < |sources| ==> sources[i].len < U64_LIMIT
    requires c.closed == 0
    modifies c
    ensures Adds(c.tool, old(c.data), c.data) && c.faults >= old(c.faults)
    ensures r.Err? ==>
              c.faults > old(c.faults)
              || Unpackable(c.tool, c.options, SparedFiles(c.tool, c.options, c.reuseIndex, c.reuseSegments, entries,
                                                           sources), |c.tape|, sources)
    ensures r.Ok? ==> Packed(c, sources)
  {
    hide ToolSound, BuildContext.Holding, EntryTrue, Adds, Unpackable, Addable, FilePackable, SparedFiles, Overloaded,
         PathBytes, AssetsOk, LinesOf, FileAdded, Fingerprint, RecordOf, ItemOf, ChunksOf, Placed, Grows, AllChunks,
         MissingIn;
    AddsNothing(c.tool, c.data);
    for i := 0 to |sources|
      invariant Packed(c, sources[..i]) && Adds(c.tool, old(c.data), c.data) && c.faults >= old(c.faults)
      invariant c.closed == 0
    {
      ghost var start, before := Now(c), c.data;
      ghost var files, paths, pool := c.fileRecords, c.filePaths, c.pathPool;
      AllPlaced(c, c.chunkIds);
      var added := AddFile(c, sources[i], CachedFor(entries, sources[i]));
      AddsOn(c.tool, old(c.data), before, c.data);
      if added.Err? {
        if c.faults == old(c.faults) {
          NotAddable(c, sources, entries, i);
          OneUnpackable(c.tool, c.options, SparedFiles(c.tool, c.options, c.reuseIndex, c.reuseSegments, entries,
                                                       sources), |c.tape|, sources, i);
        }
        return added;
      }
      FilePacked(c, start, files, paths, pool, sources[..i], sources[i]);
      assert sources[..i + 1] == sources[..i] + [sources[i]];
    }
    assert sources[..|sources|] == sources;
    return Ok(());
  }

  lemma NotAddable(c: BuildContext, sources: seq<SourceFile>, entries: CacheEntries, i: nat)
    requires i < |sources|
    ensures FilePackable(sources[i], SparedFiles(c.tool, c.options, c.reuseIndex, c.reuseSegments, entries, sources))
            ==> Addable(c, sources[i], CachedFor(entries, sources[i])) && |sources[i].path| < U16_LIMIT
  {
    hide Packable, Spared;
  }

  lemma FilePacked(c: BuildContext, a: Moment, files: seq<FileRecord>, paths: seq<Bytes>, pool: Bytes,
                   sources: seq<SourceFile>, source: SourceFile)
    requires ToolSound(c.tool) && c.Valid() && FileAdded(c, a, source) && source.len < U64_LIMIT
    requires |a.reuse.pending| == |a.plains|
    requires forall n :: 0 <= n < |a.reuse.pending| ==> Placed(a.reuse.pending[n], WorldAt(a))
    requires AssetsOk(c.tool, c.options, files, paths, pool, sources, LinesOf(a.reuse.pending, a.plains, WorldAt(a)))
    requires a.items == Fingerprint(c.tool, c.options, sources) && |source.path| < U16_LIMIT && |pool| < U32_LIMIT
    requires a.plains == AllChunks(c.tool, sources) && |pool| == PathBytes(sources)
    requires a.out.sealedFor <= MissingIn(c.tool, c.options, c.reuseIndex, c.reuseSegments, sources)
    requires c.fileRecords == files + [RecordOf(c.tool, source, |pool|, |a.reuse.pending|)]
    requires c.filePaths == paths + [source.path] && c.pathPool == pool + source.path
    requires c.fingerprint == a.items + [ItemOf(c.tool, c.options, source)]
    ensures Packed(c, sources + [source])
  {
    hide ToolSound, BuildContext.Holding, AssetsOk, Grows, Placed, Added, LinesOf, ChunksOf, RecordOf, ItemOf,
         MissingKeys, MissingIn, AllChunks, Replay, PathBytes;
    assert ChunkList(c.tool, ChunksOf(c.tool, source))[..|ChunksOf(c.tool, source)|]
        == ChunkList(c.tool, ChunksOf(c.tool, source));
    OneMoreFile(c.tool, c.options, c.reuseIndex, c.reuseSegments, sources, source);
    var chunks, availability := ChunksOf(c.tool, source), c.options.AvailabilityOf(source.path);
    AddedCount(a.reuse.pending, c.pending, chunks, availability, c.Here());
    var lines, more := LinesOf(a.reuse.pending, a.plains, WorldAt(a)), LinesOf(c.pending, a.plains + chunks, c.Here());
    LinesGrow(a.reuse.pending, a.plains, WorldAt(a), c.pending, c.plains, c.Here());
    NewLines(a.reuse.pending, a.plains, c.pending, chunks, availability, c.Here());
    AssetAdded(c.tool, c.options, files, paths, pool, sources, lines, source,
               RecordOf(c.tool, source, |pool|, |a.reuse.pending|), more);
    assert Fingerprint(c.tool, c.options, sources + [source]) == Fingerprint(c.tool, c.options, sources)
        + [ItemOf(c.tool, c.options, source)];
  }

  lemma AddedCount(before: seq<PendingBlock>, after: seq<PendingBlock>, chunks: seq<Bytes>, availability: Availability,
                   w: World)
    requires Added(before, after, chunks, availability, w)
    ensures before <= after && |after| == |before| + |chunks|
  {
  }

  // ------------------------------------------------------------------ the reuse index

  datatype ReuseLoad = ReuseLoad(compacting: bool, blocks: ReuseIndex, segments: seq<SegmentRecord>)

  ghost function ChosenOf(s: Snapshot): set<nat>
    requires |s.chunkIds| <= |s.blocks|
  {
    Compaction.Chosen(s.segments, Compaction.Firsts(Zip(s.chunkIds, s.blocks)))
  }

  /** What the index offers is in the release, under its own name, and in no segment chosen for rewriting. */
  ghost predicate OffersOnly(index: ReuseIndex, s: Snapshot, chosen: set<nat>) {
    forall key :: key in index ==> index[key].segmentOrdinal < |s.segments| && index[key].segmentOrdinal !in chosen
  }

  /** Every block outside the chosen segments is on offer, by itself or by another of its name. */
  ghost predicate OffersAll(index: ReuseIndex, s: Snapshot, chosen: set<nat>, n: nat)
    requires n <= |s.blocks| == |s.chunkIds|
  {
    forall i :: 0 <= i < n && s.blocks[i].segmentOrdinal !in chosen && s.blocks[i].segmentOrdinal < |s.segments| ==>
      (s.chunkIds[i], s.segments[s.blocks[i].segmentOrdinal].availability) in index
  }

  /** Block `n` of the release is on offer under this name in this availability. */
  ghost predicate Offers(s: Snapshot, chosen: set<nat>, key: (Bytes, Availability), n: nat)
    requires |s.chunkIds| == |s.blocks|
  {
    && n < |s.blocks| && s.chunkIds[n] == key.0 && s.blocks[n].segmentOrdinal < |s.segments|
    && s.blocks[n].segmentOrdinal !in chosen && s.segments[s.blocks[n].segmentOrdinal].availability == key.1
  }

  ghost predicate FirstOffered(s: Snapshot, chosen: set<nat>, key: (Bytes, Availability), n: nat)
    requires |s.chunkIds| == |s.blocks|
  {
    Offers(s, chosen, key, n) && forall m :: 0 <= m < n ==> !Offers(s, chosen, key, m)
  }

  /** Of several blocks of one name in one availability the first is the one to reuse. */
  ghost predicate OffersFirst(index: ReuseIndex, s: Snapshot, chosen: set<nat>)
    requires |s.chunkIds| == |s.blocks|
  {
    forall key :: key in index ==> OfferedAs(index[key], s, chosen, key)
  }

  ghost predicate OfferedAs(r: ReusableBlock, s: Snapshot, chosen: set<nat>, key: (Bytes, Availability))
    requires |s.chunkIds| == |s.blocks|
  {
    exists n: nat :: FirstOffered(s, chosen, key, n) && r == ReusableBlock(s.blocks[n], s.blocks[n].segmentOrdinal)
  }

  /** Everything there is to say of a loaded index. */
  ghost predicate OffersRight(t: Tool, r: ReuseLoad, s: Snapshot, library: map<Bytes, Manifest>)
    requires |s.chunkIds| == |s.blocks|
  {
    && r.segments == s.segments && ReuseOk(t, r.blocks, s.segments, library) && (r.compacting <==> ChosenOf(s) != {})
    && OffersOnly(r.blocks, s, ChosenOf(s)) && OffersAll(r.blocks, s, ChosenOf(s), |s.blocks|)
    && OffersFirst(r.blocks, s, ChosenOf(s))
  }

  lemma OfferOne(t: Tool, index: ReuseIndex, s: Snapshot, chosen: set<nat>, library: map<Bytes, Manifest>, n: nat)
    requires |s.chunkIds| == |s.blocks| && n < |s.blocks| && BlockAt(t, s, library, n)
    requires ReuseOk(t, index, s.segments, library) && OffersOnly(index, s, chosen) && OffersAll(index, s, chosen, n)
    ensures s.blocks[n].segmentOrdinal < |s.segments|
    ensures var b := s.blocks[n];
            var key := (s.chunkIds[n], s.segments[b.segmentOrdinal].availability);
            var more := if b.segmentOrdinal in chosen || key in index then index
                        else index[key := ReusableBlock(b, b.segmentOrdinal)];
            ReuseOk(t, more, s.segments, library) && OffersOnly(more, s, chosen) && OffersAll(more, s, chosen, n + 1)
  {
    hide Located, PlainAt;
  }

  lemma OfferOneFirst(index: ReuseIndex, s: Snapshot, chosen: set<nat>, n: nat)
    requires |s.chunkIds| == |s.blocks| && n < |s.blocks| && s.blocks[n].segmentOrdinal < |s.segments|
    requires OffersAll(index, s, chosen, n) && OffersFirst(index, s, chosen)
    ensures var b := s.blocks[n];
            var key := (s.chunkIds[n], s.segments[b.segmentOrdinal].availability);
            b.segmentOrdinal !in chosen && key !in index ==>
              OffersFirst(index[key := ReusableBlock(b, b.segmentOrdinal)], s, chosen)
  {
    var b := s.blocks[n];
    var key := (s.chunkIds[n], s.segments[b.segmentOrdinal].availability);
    if b.segmentOrdinal !in chosen && key !in index {
      assert FirstOffered(s, chosen, key, n);
      assert OfferedAs(ReusableBlock(b, b.segmentOrdinal), s, chosen, key);
    }
  }

  lemma NothingOffered(t: Tool, s: Snapshot, chosen: set<nat>, library: map<Bytes, Manifest>)
    requires |s.chunkIds| == |s.blocks|
    ensures ReuseOk(t, map[], s.segments, library) && OffersOnly(map[], s, chosen) && OffersAll(map[], s, chosen, 0)
    ensures OffersFirst(map[], s, chosen)
  {
  }

  /** Reads the pages of the old release and offers its blocks. For a release of the packer only that reading can
  fail. */
  method LoadReuseIndex(previous: Option<Snapshot>, p: Press, e: Printed, ghost t: Tool, ghost projectId: Bytes,
                        ghost data: map<Bytes, Bytes>, ghost library: map<Bytes, Manifest>)
    returns (r: Result<ReuseLoad>, ghost faults: nat)
    requires previous.Some? ==> SnapshotOk(t, projectId, data, library, previous.value)
    requires previous.Some? ==> PrintedOk(p, previous.value, e)
    ensures r.Err? ==> r == Err(Io) && previous.Some? && faults > 0
    ensures r.Ok? && previous.None? ==> r.value == ReuseLoad(false, map[], [])
    ensures r.Ok? && previous.Some? ==> OffersRight(t, r.value, previous.value, library)
  {
    hide LibraryOk, ById, SegmentNeeded, FileTotal, Compaction.Firsts, Compaction.Chosen, Compaction.WellReferenced,
         ReuseOk, OffersOnly, OffersAll, OffersFirst, BlockAt, Backed, Compaction.Consistent, PrintedOk;
    faults := 0;
    if previous.None? {
      return Ok(ReuseLoad(false, map[], [])), faults;
    }
    var s := previous.value;
    var readable: bool := *;
    if !readable {
      faults := 1;
      return Err(Io), faults;
    }
    var read := ReadReuse(s, p, e);
    var records := read.value;
    NothingOffered(t, s, ChosenOf(s), library);
    SnapshotIsBacked(t, projectId, data, library, s);
    BackedIsWellReferenced(s.segments, s.blocks, s.chunkIds, ManifestsOf(s.segments, library));
    var compact := Compaction.CompactionSegments(s.segments, records);
    if compact.Err? {
      return Err(InvalidInput), faults;
    }
    var blocks: ReuseIndex := map[];
    for n := 0 to |records|
      invariant ReuseOk(t, blocks, s.segments, library) && OffersOnly(blocks, s, compact.value)
      invariant OffersAll(blocks, s, compact.value, n) && OffersFirst(blocks, s, compact.value)
    {
      var reuse := records[n];
      OfferOne(t, blocks, s, compact.value, library, n);
      OfferOneFirst(blocks, s, compact.value, n);
      if reuse.block.segmentOrdinal !in compact.value {
        if reuse.block.segmentOrdinal >= |s.segments| {
          return Err(InvalidInput), faults;
        }
        var key := (reuse.chunkId, s.segments[reuse.block.segmentOrdinal].availability);
        if key !in blocks {
          blocks := blocks[key := ReusableBlock(reuse.block, reuse.block.segmentOrdinal)];
        }
      }
    }
    return Ok(ReuseLoad(compact.value != {}, blocks, s.segments)), faults;
  }

  // ------------------------------------------------------------- what need not be sealed again

  /** The release has the chunk: the first block of its name in its availability, outside the segments chosen for
  rewriting, is raw or the policy allows compressed blocks. */
  ghost predicate OnOffer(s: Snapshot, name: Bytes, availability: Availability, compression: Compression)
    requires |s.chunkIds| == |s.blocks|
  {
    exists n: nat :: FirstOffered(s, ChosenOf(s), (name, availability), n)
                && (compression.Auto? || s.blocks[n].codec.Raw?)
  }

  /** An incremental build finds the chunk of the file in the release before. */
  ghost predicate Found(t: Tool, options: Options, before: Option<Snapshot>, source: SourceFile, chunk: Bytes) {
    && options.incremental && before.Some? && |before.value.chunkIds| == |before.value.blocks|
    && OnOffer(before.value, t.hash(chunk), options.AvailabilityOf(source.path), Classify(t, source).compression)
  }

  /** The chunks of the files that are not found in the release before, each once for a class and a policy. */
  ghost function NewKeys(t: Tool, options: Options, before: Option<Snapshot>, sources: seq<SourceFile>): set<ChunkKey>
    requires ToolSound(t)
  {
    set i, j | 0 <= i < |sources| && 0 <= j < |ChunksOf(t, sources[i])|
               && !Found(t, options, before, sources[i], ChunksOf(t, sources[i])[j]) ::
      (t.hash(ChunksOf(t, sources[i])[j]), ClassOf(t, options, sources[i]), Classify(t, sources[i]).compression)
  }

  /** A chunk that the release has is found in its reuse index. */
  lemma OnOfferIsFound(t: Tool, r: ReuseLoad, s: Snapshot, library: map<Bytes, Manifest>, l: Lookup, chunk: Bytes,
                       offset: nat)
    requires ToolSound(t) && |s.chunkIds| == |s.blocks| && OffersRight(t, r, s, library)
    requires l.index == r.blocks && l.segments == r.segments
    requires OnOffer(s, t.hash(chunk), l.kind.availability, l.compression)
    ensures PastOffers(l, CachedChunk(offset, |chunk|, t.hash(chunk)))
  {
    hide ToolSound, ChosenOf;
    var key := (t.hash(chunk), l.kind.availability);
    var n: nat :| FirstOffered(s, ChosenOf(s), key, n) && (l.compression.Auto? || s.blocks[n].codec.Raw?);
    assert (s.chunkIds[n], s.segments[s.blocks[n].segmentOrdinal].availability) == key;
    assert key in r.blocks && ReusableOk(t, key, r.blocks[key], r.segments, library);
    assert OfferedAs(r.blocks[key], s, ChosenOf(s), key);
    var m: nat :| FirstOffered(s, ChosenOf(s), key, m)
                  && r.blocks[key] == ReusableBlock(s.blocks[m], s.blocks[m].segmentOrdinal);
    assert n == m;
    SameHash(t, PlainAt(r.blocks[key].block, library[r.segments[r.blocks[key].segmentOrdinal].id]), chunk);
  }

  /** What a build has to seal at most, by what the release before has. */
  lemma {:induction false} MissingInAreNew(t: Tool, options: Options, r: ReuseLoad, before: Option<Snapshot>,
                                           library: map<Bytes, Manifest>, sources: seq<SourceFile>, n: nat)
    requires ToolSound(t) && n <= |sources|
    requires options.incremental && before.Some? ==>
               |before.value.chunkIds| == |before.value.blocks| && OffersRight(t, r, before.value, library)
    ensures MissingIn(t, options, r.blocks, r.segments, sources[..n]) <= NewKeys(t, options, before, sources)
  {
    hide ToolSound, OffersRight, ChunksOf, MissingKeys, NewKeys;
    if n > 0 {
      MissingInAreNew(t, options, r, before, library, sources, n - 1);
      assert sources[..n][..n - 1] == sources[..n - 1];
      FileKeysAreNew(t, options, r, before, library, sources, n - 1);
    }
  }

  lemma FileKeysAreNew(t: Tool, options: Options, r: ReuseLoad, before: Option<Snapshot>,
                       library: map<Bytes, Manifest>, sources: seq<SourceFile>, i: nat)
    requires ToolSound(t) && i < |sources|
    requires options.incremental && before.Some? ==>
               |before.value.chunkIds| == |before.value.blocks| && OffersRight(t, r, before.value, library)
    ensures MissingKeys(LookupFor(t, options, r.blocks, r.segments, sources[i]),
                        ChunkList(t, ChunksOf(t, sources[i])))
            <= NewKeys(t, options, before, sources)
  {
    hide ToolSound, OffersRight, ChunksOf, OnOffer, PastOffers, OffsetOf, Classify;
    var l, chunks := LookupFor(t, options, r.blocks, r.segments, sources[i]), ChunksOf(t, sources[i]);
    var all := ChunkList(t, chunks);
    forall key | key in MissingKeys(l, all)
      ensures key in NewKeys(t, options, before, sources)
    {
      var j :| 0 <= j < |all| && !PastOffers(l, all[j]) && (all[j].chunkId, l.kind, l.compression) == key;
      if Found(t, options, before, sources[i], chunks[j]) {
        OnOfferIsFound(t, r, before.value, library, l, chunks[j], OffsetOf(chunks, j));
      }
    }
  }

  // ---------------------------------------------------------------- what need not be opened again

  /** What the development cache gives a build: the entries of its file, if it is wanted and was saved for the release
  in place. */
  function EntriesIn(t: Tool, projectId: Bytes, canonical: Bytes -> bool, before: Option<Snapshot>,
                     cacheFile: Option<Bytes>, options: Options): CacheEntries {
    if !options.developmentCache || before.None? || cacheFile.None? then map[]
    else
      match BuildCacheFile.Loaded(cacheFile.value, projectId, before.value.sequence, t.hash, canonical)
      case None => map[]
      case Some(raws) => BuildCacheFile.MapOf(raws)
  }

  /** The development cache has the file under its stamp and class, and the release has all its chunks. */
  ghost predicate Remembered(t: Tool, options: Options, before: Option<Snapshot>, entries: CacheEntries,
                             source: SourceFile) {
    && options.incremental && before.Some? && |before.value.chunkIds| == |before.value.blocks|
    && source.len > 0 && source.path in entries && EntryMatches(t, options, source, entries[source.path])
    && Contiguous(entries[source.path].chunks, 0, source.len)
    && AllOnOffer(before.value, entries[source.path].chunks, options.AvailabilityOf(source.path),
                  Classify(t, source).compression)
  }

  ghost predicate AllOnOffer(s: Snapshot, chunks: seq<CachedChunk>, availability: Availability,
                             compression: Compression)
    requires |s.chunkIds| == |s.blocks|
  {
    forall j :: 0 <= j < |chunks| ==> OnOffer(s, chunks[j].chunkId, availability, compression)
  }

  ghost function RememberedFiles(t: Tool, options: Options, before: Option<Snapshot>, entries: CacheEntries,
                                 sources: seq<SourceFile>): set<SourceFile> {
    set i | 0 <= i < |sources| && Remembered(t, options, before, entries, sources[i]) :: sources[i]
  }

  /** A remembered file is not opened. */
  lemma RememberedIsSpared(t: Tool, options: Options, r: ReuseLoad, s: Snapshot, library: map<Bytes, Manifest>,
                           entries: CacheEntries, source: SourceFile)
    requires ToolSound(t) && |s.chunkIds| == |s.blocks| && OffersRight(t, r, s, library)
    requires Remembered(t, options, Some(s), entries, source) && EntryTrue(t, source, entries[source.path])
    ensures SparedFile(t, options, r.blocks, r.segments, entries, source)
  {
    assert ClassOk(Classify(t, source)) && CutsAll(t.cut(source.body), |source.body|);
    hide ToolSound, OffersRight, Contiguous, Chunks, AllPast, AllOnOffer, ChunkList;
    AllFound(t, r, s, library, LookupFor(t, options, r.blocks, r.segments, source),
             Chunks(t, Classify(t, source), source.body));
  }

  lemma AllFound(t: Tool, r: ReuseLoad, s: Snapshot, library: map<Bytes, Manifest>, l: Lookup, chunks: seq<Bytes>)
    requires ToolSound(t) && |s.chunkIds| == |s.blocks| && OffersRight(t, r, s, library)
    requires l.index == r.blocks && l.segments == r.segments
    requires AllOnOffer(s, ChunkList(t, chunks), l.kind.availability, l.compression)
    ensures AllPast(l, ChunkList(t, chunks))
  {
    hide ToolSound, OffersRight, OnOffer, PastOffers, OffsetOf;
    var all := ChunkList(t, chunks);
    forall j | 0 <= j < |all|
      ensures PastOffers(l, all[j])
    {
      assert OnOffer(s, all[j].chunkId, l.kind.availability, l.compression);
      OnOfferIsFound(t, r, s, library, l, chunks[j], OffsetOf(chunks, j));
    }
  }

  lemma RememberedAreSpared(t: Tool, options: Options, r: ReuseLoad, before: Option<Snapshot>,
                            library: map<Bytes, Manifest>, entries: CacheEntries, sources: seq<SourceFile>)
    requires ToolSound(t) && EntriesTrue(t, entries, sources)
    requires options.incremental && before.Some? ==>
               |before.value.chunkIds| == |before.value.blocks| && OffersRight(t, r, before.value, library)
    ensures RememberedFiles(t, options, before, entries, sources)
            <= SparedFiles(t, options, r.blocks, r.segments, entries, sources)
  {
    hide ToolSound, OffersRight, SparedFile, EntryTrue, EntryMatches, Contiguous, AllOnOffer;
    forall x | x in RememberedFiles(t, options, before, entries, sources)
      ensures x in SparedFiles(t, options, r.blocks, r.segments, entries, sources)
    {
      var i :| 0 <= i < |sources| && Remembered(t, options, before, entries, sources[i]) && sources[i] == x;
      RememberedIsSpared(t, options, r, before.value, library, entries, sources[i]);
    }
  }

  // ------------------------------------------------------------------ the output directory

  /** The sequence of the next release. */
  function NextSequence(previous: Option<Snapshot>, floor: nat): nat {
    Max(if previous.None? then 1 else previous.value.sequence + 1, floor)
  }

  /** It is the least that is positive, respects the floor and exceeds that of the release in place. */
  lemma NextSequenceExactlyWhen(previous: Option<Snapshot>, floor: nat, n: nat)
    ensures n >= NextSequence(previous, floor)
            <==> n >= 1 && n >= floor && (previous.Some? ==> n > previous.value.sequence)
  {
  }

  function NamesIn(segments: seq<SegmentRecord>): set<Bytes> {
    set s | s in segments :: s.id
  }

  /** The release contains the sources as these options pack them, and everything it names is on disk. */
  ghost predicate ReleaseHolds(t: Tool, projectId: Bytes, data: map<Bytes, Bytes>, library: map<Bytes, Manifest>,
                               s: Snapshot, options: Options, sources: seq<SourceFile>)
    requires ToolSound(t)
  {
    && SnapshotOk(t, projectId, data, library, s) && s.fingerprint == Fingerprint(t, options, sources)
    && AssetsOk(t, options, s.files, s.paths, s.pathPool, sources, SnapshotLines(s, library))
  }

  /** Removes segment files that the release does not name. */
  function Cleaned(data: map<Bytes, Bytes>, segments: seq<SegmentRecord>): map<Bytes, Bytes> {
    map id | id in data && id in NamesIn(segments) :: data[id]
  }

  lemma CleanedKeeps(t: Tool, projectId: Bytes, data: map<Bytes, Bytes>, library: map<Bytes, Manifest>, s: Snapshot)
    requires SnapshotOk(t, projectId, data, library, s)
    ensures SnapshotOk(t, projectId, Cleaned(data, s.segments), library, s)
    ensures Cleaned(data, s.segments).Keys == NamesIn(s.segments)
  {
    hide Stored, ById, SegmentNeeded, BlockAt, FileTotal;
    var clean := Cleaned(data, s.segments);
    forall i | 0 <= i < |s.segments|
      ensures s.segments[i].id in clean && Stored(t, projectId, clean, s.segments[i], library[s.segments[i].id])
    {
      StoredNamed(t, projectId, data, s.segments[i], library[s.segments[i].id]);
      assert s.segments[i] in s.segments;
      StoredStays(t, projectId, data, clean, s.segments[i], library[s.segments[i].id]);
    }
  }

  lemma SnapshotStays(t: Tool, projectId: Bytes, data: map<Bytes, Bytes>, more: map<Bytes, Bytes>,
                      library: map<Bytes, Manifest>, s: Snapshot)
    requires SnapshotOk(t, projectId, data, library, s) && Extends(data, more)
    ensures SnapshotOk(t, projectId, more, library, s)
  {
    hide LibraryOk, ById, SegmentNeeded, BlockAt, FileTotal, Extends;
    LibraryStays(t, projectId, data, more, s.segments, library);
  }

  /** Packs everything into a new build over the segments already there. */
  method RunBuild(tool: Tool, options: Options, projectId: Bytes, tape: seq<Draw>, reuse: ReuseLoad,
                  data: map<Bytes, Bytes>, ghost library: map<Bytes, Manifest>, sources: seq<SourceFile>,
                  entries: CacheEntries)
    returns (c: BuildContext, r: Result<()>)
    requires ToolSound(tool) && |projectId| == 16 && TapeOk(tape) && NamesDistinct(reuse.segments)
    requires LibraryOk(tool, projectId, data, reuse.segments, library) && NamedByContent(tool, data)
    requires ReuseOk(tool, reuse.blocks, reuse.segments, library)
    requires EntriesTrue(tool, entries, sources) && forall i :: 0 <= i < |sources| ==> sources[i].len < U64_LIMIT
    ensures fresh(c) && c.tool == tool && c.options == options && c.projectId == projectId && c.tape == tape
    ensures c.reuseIndex == reuse.blocks && c.reuseSegments == reuse.segments && c.library == library
    ensures Adds(tool, data, c.data)
    ensures r.Err? ==>
              c.faults > 0
              || Unpackable(tool, options, SparedFiles(tool, options, reuse.blocks, reuse.segments, entries, sources),
                            |tape|, sources)
    ensures r.Ok? ==> Packed(c, sources)
                      && AllStored(tool, projectId, c.data, c.records, c.manifests, c.kinds, c.tape,
                                   options.targetBytes)
  {
    hide ToolSound, LibraryOk, ReuseOk, NamesDistinct, TapeOk, EntriesTrue, Adds, BuildContext.Holding, SegmentsOk,
         Unpackable, NamedByContent, Overloaded;
    c := new BuildContext(tool, options, projectId, tape, reuse.blocks, reuse.segments, data, library);
    assert Fingerprint(tool, options, []) == [] && AllChunks(tool, []) == [];
    r := PackFiles(c, sources, entries);
    if r.Err? {
      return;
    }
    ghost var packed := c.data;
    r := Finish(c, sources, SparedFiles(tool, options, reuse.blocks, reuse.segments, entries, sources));
    AddsOn(tool, data, packed, c.data);
  }

  method Finish(c: BuildContext, ghost sources: seq<SourceFile>, ghost spared: set<SourceFile>) returns (r: Result<()>)
    requires ToolSound(c.tool) && Packed(c, sources)
    modifies c`data, c`records, c`active, c`newSegmentBytes, c`closed, c`faults
    ensures Adds(c.tool, old(c.data), c.data) && c.faults >= old(c.faults)
    ensures r.Err? ==> c.faults > old(c.faults) || Unpackable(c.tool, c.options, spared, |c.tape|, sources)
    ensures r.Ok? ==> Packed(c, sources)
                      && AllStored(c.tool, c.projectId, c.data, c.records, c.manifests, c.kinds, c.tape,
                                   c.options.targetBytes)
  {
    hide ToolSound, Adds, AssetsOk, LinesOf, BuildContext.Holding, Overloaded;
    r := FinishActiveSegments(c);
    if r.Ok? {
      ContextStored(c);
    }
  }

  lemma ContextStored(c: BuildContext)
    requires c.Valid() && c.active == []
    ensures AllStored(c.tool, c.projectId, c.data, c.records, c.manifests, c.kinds, c.tape, c.options.targetBytes)
  {
    hide ToolSound, CurrentOk, SegmentsOk, AllReferenced, NoneEmpty, LibraryOk, ReuseOk, UsedOk, TapeOk, NamesDistinct,
         BlocksOk, FinishedOk, Frugal, SealedOnce, NamedByContent;
    AllFinished(c.tool, c.projectId, c.data, c.records, c.manifests, c.kinds, c.tape, c.options.targetBytes);
  }

  /** The publisher's output directory: the current release, the segment files and the development cache. A build
  may stop with an error at any file operation; `faults` counts the operations that failed. `misfits` counts names and
  digests without the width of their field, which the program's types rule out. */
  class Publisher {
    const tool: Tool
    const projectId: Bytes
    const pageCrypto: nat -> PageCrypto
    const pathHash: PathIndex.PathHash
    const canonical: Bytes -> bool
    ghost const honest: (Bytes, Stamp) -> Bytes
    var snapshot: Option<Snapshot>
    var printed: Printed
    var data: map<Bytes, Bytes>
    var cacheFile: Option<Bytes>
    ghost var library: map<Bytes, Manifest>
    ghost var published: seq<SourceFile>
    ghost var publishedOptions: Options
    ghost var faults: nat
    ghost var misfits: nat

    /** The primitives for the snapshot of one release; its pages have a key of their own. */
    function PressFor(sequence: nat): Press {
      Press(pageCrypto(sequence), pathHash, canonical)
    }

    ghost predicate Sound() {
      ToolSound(tool) && |projectId| == 16 && forall n: nat :: PressSound(PressFor(n))
    }

    /** The release in place contains the sources it was built from, under the options of that build, and its
    printed form is exactly that release. */
    ghost predicate Contains(options: Options, sources: seq<SourceFile>)
      requires ToolSound(tool)
      reads this
    {
      && snapshot.Some? && ReleaseHolds(tool, projectId, data, library, snapshot.value, options, sources)
      && PrintedOk(PressFor(snapshot.value.sequence), snapshot.value, printed) && PathsProper(sources)
    }

    /** One file a path, and every path canonical. */
    ghost predicate PathsProper(sources: seq<SourceFile>) {
      PathsDistinct(sources) && forall i :: 0 <= i < |sources| ==> canonical(sources[i].path)
    }

    ghost predicate Valid()
      reads this
    {
      && Sound()
      && (snapshot.Some? ==> Contains(publishedOptions, published) && snapshot.value.sequence < U64_LIMIT)
      && (cacheFile.Some? ==> FileTrue(tool, honest, projectId, canonical, cacheFile.value))
      && NamedByContent(tool, data)
    }

    /** What a build may assume of its input. */
    ghost predicate Buildable(options: Options, sources: seq<SourceFile>, tape: seq<Draw>)
      reads this
    {
      && SourcesListed(options, sources, honest, canonical) && TapeOk(tape)
      && (snapshot.Some? ==> FreshUids(tape, snapshot.value.segments))
    }

    /** The build has put its release in place: it contains the sources, its sequence is the next one, it carries
    over no segment chosen for rewriting, and a strict build has compared every asset with its source. */
    ghost predicate Replaced(before: Option<Snapshot>, options: Options, sources: seq<SourceFile>, tape: seq<Draw>,
                             created: nat)
      requires ToolSound(tool)
      reads this
    {
      && Contains(options, sources) && snapshot.value.sequence == NextSequence(before, options.floor)
      && CarriedOver(before, snapshot.value, created) && UidsDrawn(before, snapshot.value, tape)
      && (!options.developmentCache ==> AllCompared(sources))
    }

    constructor (tool: Tool, projectId: Bytes, pageCrypto: nat -> PageCrypto, pathHash: PathIndex.PathHash,
                 canonical: Bytes -> bool, ghost honest: (Bytes, Stamp) -> Bytes)
      requires ToolSound(tool) && |projectId| == 16
      requires forall n: nat :: PressSound(Press(pageCrypto(n), pathHash, canonical))
      ensures Valid() && snapshot == None && data == map[] && cacheFile == None && faults == 0 && misfits == 0
      ensures this.tool == tool && this.projectId == projectId && this.honest == honest && this.canonical == canonical
    {
      this.tool, this.projectId, this.honest := tool, projectId, honest;
      this.pageCrypto, this.pathHash, this.canonical := pageCrypto, pathHash, canonical;
      snapshot, data, cacheFile, library := None, map[], None, map[];
      printed := Printed([], EncryptedPages([], [], 0, 0), []);
      faults, misfits := 0, 0;
    }

    /** The entries of the development cache, if it is wanted, of the current release and accepted. A cache that
    cannot be read is an error, one that is damaged or of another release is ignored. */
    method LoadCache(options: Options) returns (r: Result<CacheEntries>)
      requires Valid()
      modifies this`faults
      ensures faults >= old(faults)
      ensures r.Err? ==> options.developmentCache && snapshot.Some? && cacheFile.Some? && faults > old(faults)
      ensures r.Ok? ==> CacheTrue(tool, honest, r.value)
      ensures r.Ok? ==> r.value == EntriesIn(tool, projectId, canonical, snapshot, cacheFile, options)
    {
      hide ToolSound, Contains, BuildCacheFile.Loaded, BuildCacheFile.MapOf, PressSound;
      if !options.developmentCache || snapshot.None? {
        return Ok(map[]);
      }
      var loaded, failed := BuildCacheFile.LoadFile(cacheFile, projectId, snapshot.value.sequence, tool.hash,
                                                    canonical);
      faults := faults + failed;
      if loaded.Err? {
        return Err(loaded.error);
      }
      if loaded.value.None? {
        return Ok(map[]);
      }
      assert LoadsTrue(tool, honest, projectId, canonical, cacheFile.value, snapshot.value.sequence);
      return Ok(loaded.value.value);
    }

    /** The development cache describes the files of the release. */
    ghost predicate Saved(options: Options, sources: seq<SourceFile>, sequence: nat)
      reads this
    {
      ToolSound(tool) && cacheFile.Some? && SavedFor(tool, options, projectId, sequence, sources, cacheFile.value)
    }

    /** Saves the development cache under the sequence of the release that it describes. An error leaves the
    cache that was there. */
    method UpdateCache(c: BuildContext, options: Options, sources: seq<SourceFile>, sequence: nat)
      returns (r: Result<()>)
      requires Sound() && Packed(c, sources) && c.tool == tool && c.options == options && c.projectId == projectId
      requires SourcesListed(options, sources, honest, canonical) && sequence < U64_LIMIT
      requires cacheFile.Some? ==> FileTrue(tool, honest, projectId, canonical, cacheFile.value)
      modifies this`cacheFile, this`faults, this`misfits
      ensures faults >= old(faults) && misfits >= old(misfits)
      ensures r.Err? ==> faults > old(faults) || misfits > old(misfits) || Uncacheable(c, options, sources)
      ensures cacheFile.Some? ==> FileTrue(tool, honest, projectId, canonical, cacheFile.value)
      ensures if r.Ok? && options.developmentCache then Saved(options, sources, sequence)
              else cacheFile == old(cacheFile)
    {
      hide ToolSound, BuildContext.Holding, AssetsOk, FileTrue, LinesOf, SourcesListed, SavedFor, Lawful,
           DigestsDistinct;
      if !options.developmentCache {
        return Ok(());
      }
      var bytes, misnamed := PrintEntries(c, sources, sequence);
      if bytes.Err? {
        if |tool.hash(misnamed)| != 32 {
          misfits := misfits + 1;
        }
        return Err(bytes.error);
      }
      var installed: bool := *;
      if !installed {
        faults := faults + 1;
        return Err(Io);
      }
      assert PressSound(PressFor(0));
      SavedIsTrue(tool, honest, options, projectId, sequence, sources, bytes.value, canonical);
      cacheFile := Some(bytes.value);
      return Ok(());
    }

    /** The build or the listing of its files is beyond what the cache file can count. */
    ghost predicate Uncacheable(c: BuildContext, options: Options, sources: seq<SourceFile>)
      reads c
    {
      || (options.developmentCache && exists i :: 0 <= i < |sources| && !StampFits(sources[i].stamp))
      || |sources| >= U32_LIMIT || |c.pending| >= U32_LIMIT
    }

    lemma UncacheableIsRefusable(c: BuildContext, options: Options, sources: seq<SourceFile>)
      requires ToolSound(c.tool) && Packed(c, sources) && c.options == options
      ensures Uncacheable(c, options, sources) ==>
                Crowded(c.tool, options, c.reuseSegments, sources) || Unverifiable(options, sources)
    {
      hide ToolSound, BuildContext.Holding, AssetsOk, LinesOf, AllChunks, PathBytes, CatalogBytes, SegmentsFor,
           SealedLen, FileTotal;
    }

    /** Removes the segment files that the release does not name, one after the other, and synchronizes the
    directory. An error leaves some of them in place, never removes a named one. */
    method CleanUp(segments: seq<SegmentRecord>) returns (r: Result<()>)
      modifies this`data, this`faults
      ensures Extends(Cleaned(old(data), segments), data) && Extends(data, old(data)) && faults >= old(faults)
      ensures r.Err? ==> faults > old(faults)
      ensures r.Ok? ==> data == Cleaned(old(data), segments)
    {
      var active := NamesIn(segments);
      var left := data.Keys;
      var removed := false;
      while left != {}
        invariant left <= data.Keys && data == map id | id in old(data) && (id in active || id in left) :: old(data)[id]
        invariant faults == old(faults)
        decreases |left|
      {
        var id :| id in left;
        var fails: bool := *;
        if fails {
          faults := faults + 1;
          return Err(Io);
        }
        if id !in active {
          data := data - {id};
          removed := true;
        }
        left := left - {id};
      }
      if removed {
        var synced: bool := *;
        if !synced {
          faults := faults + 1;
          return Err(Io);
        }
      }
      return Ok(());
    }

    /** Cleaning up, completely or in part, keeps the release. */
    lemma CleanedStaysValid(before: map<Bytes, Bytes>, options: Options, sources: seq<SourceFile>)
      requires ToolSound(tool) && snapshot.Some?
      requires ReleaseHolds(tool, projectId, before, library, snapshot.value, options, sources)
      requires PrintedOk(PressFor(snapshot.value.sequence), snapshot.value, printed)
      requires Extends(Cleaned(before, snapshot.value.segments), data) && PathsProper(sources)
      requires NamedByContent(tool, before) && Extends(data, before)
      ensures Contains(options, sources) && NamedByContent(tool, data)
      ensures Cleaned(before, snapshot.value.segments).Keys == NamesIn(snapshot.value.segments)
    {
      hide ToolSound, SnapshotOk, AssetsOk, SnapshotLines, PrintedOk, Extends, PathsProper, NamedByContent;
      var s := snapshot.value;
      FewerAreNamed(tool, before, data);
      CleanedKeeps(tool, projectId, before, library, s);
      SnapshotStays(tool, projectId, Cleaned(before, s.segments), data, library, s);
    }

    /** A release with the fingerprint of the build contains its sources. */
    lemma AlreadyPacked(c: BuildContext, options: Options, sources: seq<SourceFile>)
      requires Valid() && Packed(c, sources) && c.tool == tool && c.options == options
      requires snapshot.Some? && snapshot.value.fingerprint == c.fingerprint
      ensures ReleaseHolds(tool, projectId, data, library, snapshot.value, options, sources)
      ensures SnapshotOk(tool, projectId, data, library, snapshot.value)
    {
      hide ToolSound, BuildContext.Holding, SnapshotOk, AssetsOk, FileTrue, LinesOf, SnapshotLines, PrintedOk,
           PathsProper, NamedByContent;
      var s := snapshot.value;
      SameFingerprint(tool, publishedOptions, s.files, s.paths, s.pathPool, published, SnapshotLines(s, library),
                      options, sources);
    }

    /** Keeps the release, which already contains the sources, and removes what it does not name. */
    method KeepRelease(c: BuildContext, options: Options, sources: seq<SourceFile>) returns (r: Result<PackReport>)
      requires Valid() && Packed(c, sources) && c.tool == tool && c.options == options && c.projectId == projectId
      requires SourcesListed(options, sources, honest, canonical)
      requires snapshot.Some? && snapshot.value.fingerprint == c.fingerprint
      modifies this`data, this`cacheFile, this`published, this`publishedOptions, this`faults, this`misfits
      ensures faults >= old(faults) && misfits >= old(misfits)
      ensures r.Err? ==> faults > old(faults) || misfits > old(misfits)
                         || Crowded(tool, options, c.reuseSegments, sources) || Unverifiable(options, sources)
      ensures Valid() && Contains(options, sources)
      ensures Extends(Cleaned(old(data), snapshot.value.segments), data) && Extends(data, old(data))
      ensures r.Ok? ==> data.Keys == NamesIn(snapshot.value.segments)
      ensures r.Ok? ==> !r.value.changed && r.value.sequence == snapshot.value.sequence
                        && r.value.fileCount == |sources| && r.value.blockCount == |c.pending|
                        && r.value.newBlocks == r.value.newSegments == r.value.newSegmentBytes == 0
      ensures r.Ok? && options.developmentCache ==> Saved(options, sources, snapshot.value.sequence)
      ensures r.Ok? ==>
                LedgerOk(snapshot.value.segments, snapshot.value.blocks) && r.value.storage == StatsOf(snapshot.value)
    {
      hide ToolSound, BuildContext.Holding, SnapshotOk, AssetsOk, FileTrue, LinesOf, SnapshotLines, LedgerOk,
           SourcesListed, PayloadTotal, FileTotal, PrintedOk, Extends, Cleaned, NamesIn, SavedFor, PressSound,
           PathsProper, NamedByContent, Uncacheable, Crowded, Unverifiable, Fingerprint, ReleaseHolds;
      UncacheableIsRefusable(c, options, sources);
      var s := snapshot.value;
      PathsListedProper(options, sources);
      AlreadyPacked(c, options, sources);
      published, publishedOptions := sources, options;
      CleanedWithin(data, s.segments);
      ExtendsSelf(data);
      LedgerOfSnapshot(tool, projectId, data, library, s);
      var readable: bool := *;
      if !readable {
        faults := faults + 1;
        return Err(Io);
      }
      var storage := StorageStatsOf(s.segments, s.blocks);
      if storage.Err? {
        return Err(InvalidInput);
      }
      var saved := UpdateCache(c, options, sources, s.sequence);
      if saved.Err? {
        return Err(saved.error);
      }
      var cleaned := CleanUp(s.segments);
      CleanedStaysValid(old(data), options, sources);
      if cleaned.Err? {
        return Err(cleaned.error);
      }
      return Ok(PackReport(false, s.sequence, |sources|, |c.pending|, c.reusedBlocks, 0, 0, 0, storage.value));
    }

    /** Writes the new snapshot and prints it. */
    method PrintRelease(c: BuildContext, options: Options, sources: seq<SourceFile>, sequence: nat)
      returns (r: Result<(Snapshot, StorageStats, Printed)>)
      requires Sound() && Packed(c, sources) && c.tool == tool && c.options == options && c.projectId == projectId
      requires SourcesListed(options, sources, honest, canonical) && FreshUids(c.tape, c.reuseSegments)
      requires sequence < U64_LIMIT
      requires AllStored(c.tool, c.projectId, c.data, c.records, c.manifests, c.kinds, c.tape, c.options.targetBytes)
      modifies this`misfits
      ensures misfits >= old(misfits)
      ensures r.Err? ==> misfits > old(misfits) || Crowded(tool, options, c.reuseSegments, sources)
      ensures r.Ok? ==> Written(c, sequence, r.value.0) && NamesApart(c.used, c.records)
      ensures r.Ok? ==> PrintedOk(PressFor(sequence), r.value.0, r.value.2)
      ensures r.Ok? ==> LedgerOk(r.value.0.segments, r.value.0.blocks) && r.value.1 == StatsOf(r.value.0)
    {
      hide ToolSound, BuildContext.Holding, SnapshotOk, AssetsOk, LinesOf, SnapshotLines, LedgerOk, PayloadTotal,
           FileTotal, AllStored, NamesApart, Resolved, FreshUids, StatsOf, PrintedOk, PressSound, PathsDistinct,
           Written, NamedByContent, Crowded, WidthsFit;
      var written := WriteSnapshot(c, sequence);
      if written.Err? {
        TooLargeIsCrowded(c, sources);
        return Err(written.error);
      }
      var s := written.value.0;
      WrittenHolds(c, sequence, s, sources);
      assert PressSound(PressFor(sequence));
      var pages := PrintSnapshot(PressFor(sequence), s, options, tool, projectId, c.data,
                                 Merged(c.library, c.records, c.manifests), sources);
      if pages.Err? {
        if !Crowded(tool, options, c.reuseSegments, sources) {
          RoomForSnapshot(c, sequence, s, sources, PressFor(sequence));
          assert !WidthsFit(PressFor(sequence), options.level, s);
          misfits := misfits + 1;
        }
        return Err(pages.error);
      }
      return Ok((s, written.value.1, pages.value));
    }

    /** Writes a printed snapshot to disk and verifies it there. */
    method VerifyRelease(c: BuildContext, options: Options, sources: seq<SourceFile>, sequence: nat, s: Snapshot,
                         pages: Printed) returns (r: Result<()>)
      requires Sound() && Packed(c, sources) && c.tool == tool && c.options == options && c.projectId == projectId
      requires SourcesListed(options, sources, honest, canonical) && Written(c, sequence, s)
      requires PrintedOk(PressFor(sequence), s, pages)
      modifies this`faults
      ensures faults >= old(faults)
      ensures r.Err? ==> faults > old(faults) || (!options.developmentCache && Unverifiable(options, sources))
      ensures r.Ok? && !options.developmentCache ==> AllCompared(sources)
    {
      hide ToolSound, BuildContext.Holding, SnapshotOk, AssetsOk, LinesOf, SnapshotLines, PrintedOk, PressSound,
           PathsDistinct, Written, Comparable, StampFits, SourcesListed, Fingerprint, Merged;
      PathsListedProper(options, sources);
      WrittenHolds(c, sequence, s, sources);
      assert PressSound(PressFor(sequence));
      var onDisk: bool := *;
      if !onDisk {
        faults := faults + 1;
        return Err(Io);
      }
      var found: map<Bytes, Bytes> := *;
      var verified, failed := VerifyStaged(tool, projectId, c.data, Merged(c.library, c.records, c.manifests), s,
                                           PressFor(sequence), pages, found, sources, options,
                                           !options.developmentCache);
      faults := faults + failed;
      return verified;
    }

    /** Writes the new snapshot beside the old one, verifies it and saves the development cache. Nothing of the
    release in place is touched. */
    method StageRelease(c: BuildContext, options: Options, sources: seq<SourceFile>, sequence: nat)
      returns (r: Result<(Snapshot, StorageStats, Printed)>)
      requires Valid() && Packed(c, sources) && c.tool == tool && c.options == options && c.projectId == projectId
      requires SourcesListed(options, sources, honest, canonical) && FreshUids(c.tape, c.reuseSegments)
      requires sequence < U64_LIMIT
      requires AllStored(c.tool, c.projectId, c.data, c.records, c.manifests, c.kinds, c.tape, c.options.targetBytes)
      modifies this`cacheFile, this`faults, this`misfits
      ensures Valid() && faults >= old(faults) && misfits >= old(misfits)
      ensures r.Err? ==> faults > old(faults) || misfits > old(misfits)
                         || Crowded(tool, options, c.reuseSegments, sources) || Unverifiable(options, sources)
      ensures r.Ok? ==> Written(c, sequence, r.value.0) && NamesApart(c.used, c.records)
      ensures r.Ok? ==> PrintedOk(PressFor(sequence), r.value.0, r.value.2)
      ensures r.Ok? ==> LedgerOk(r.value.0.segments, r.value.0.blocks) && r.value.1 == StatsOf(r.value.0)
      ensures r.Ok? && !options.developmentCache ==> AllCompared(sources)
      ensures r.Ok? && options.developmentCache ==> Saved(options, sources, sequence)
    {
      hide ToolSound, BuildContext.Holding, SnapshotOk, AssetsOk, FileTrue, LinesOf, SnapshotLines, LedgerOk,
           PayloadTotal, FileTotal, AllStored, NamesApart, Resolved, FreshUids, StatsOf, PrintedOk, SavedFor,
           PressSound, PathsProper, Written, NamedByContent, Crowded, Unverifiable, Uncacheable, SourcesListed,
           AllCompared;
      UncacheableIsRefusable(c, options, sources);
      var pressed := PrintRelease(c, options, sources, sequence);
      if pressed.Err? {
        return pressed;
      }
      var (s, storage, pages) := pressed.value;
      var verified := VerifyRelease(c, options, sources, sequence, s, pages);
      if verified.Err? {
        return Err(verified.error);
      }
      var saved := UpdateCache(c, options, sources, sequence);
      if saved.Err? {
        return Err(saved.error);
      }
      return pressed;
    }

    /** Renames a staged release into place, synchronizes the directory and removes what the release does not name.
    An error before the renaming leaves the old release in place, an error after it the new one. */
    method CommitRelease(s: Snapshot, pages: Printed, ghost merged: map<Bytes, Manifest>, ghost options: Options,
                         ghost sources: seq<SourceFile>) returns (r: Result<()>)
      requires Valid() && s.sequence < U64_LIMIT && PathsProper(sources)
      requires ReleaseHolds(tool, projectId, data, merged, s, options, sources)
      requires PrintedOk(PressFor(s.sequence), s, pages)
      modifies this`snapshot, this`printed, this`library, this`published, this`publishedOptions, this`data,
               this`faults
      ensures Valid() && Extends(data, old(data)) && faults >= old(faults)
      ensures r.Err? ==> faults > old(faults)
      ensures (snapshot == old(snapshot) && library == old(library) && data == old(data) && r.Err?)
              || (Contains(options, sources) && snapshot == Some(s))
      ensures r.Ok? ==> snapshot == Some(s) && data.Keys == NamesIn(s.segments)
    {
      hide ToolSound, SnapshotOk, AssetsOk, FileTrue, SnapshotLines, PrintedOk, PressSound, Extends, Cleaned, NamesIn,
           PathsProper, NamedByContent;
      ExtendsSelf(data);
      var renamed: bool := *;
      if !renamed {
        faults := faults + 1;
        return Err(Io);
      }
      snapshot, printed, library := Some(s), pages, merged;
      published, publishedOptions := sources, options;
      var synced: bool := *;
      if !synced {
        faults := faults + 1;
        return Err(Io);
      }
      r := CleanUp(s.segments);
      CleanedStaysValid(old(data), options, sources);
    }

    /** Stages a new release and commits it. An error before the renaming leaves the old release in place, an error
    after it the new one. */
    method NewRelease(c: BuildContext, options: Options, sources: seq<SourceFile>, sequence: nat)
      returns (r: Result<PackReport>)
      requires Valid() && Packed(c, sources) && c.tool == tool && c.options == options && c.projectId == projectId
      requires c.data == data
      requires SourcesListed(options, sources, honest, canonical) && FreshUids(c.tape, c.reuseSegments)
      requires sequence < U64_LIMIT
      requires AllStored(c.tool, c.projectId, c.data, c.records, c.manifests, c.kinds, c.tape, c.options.targetBytes)
      modifies this
      ensures Valid() && Extends(data, old(data)) && faults >= old(faults) && misfits >= old(misfits)
      ensures r.Err? ==> faults > old(faults) || misfits > old(misfits)
                         || Crowded(tool, options, c.reuseSegments, sources) || Unverifiable(options, sources)
      ensures (snapshot == old(snapshot) && library == old(library) && data == old(data) && r.Err?)
              || (Contains(options, sources) && snapshot.value.sequence == sequence
                  && Listed(snapshot.value.segments, c.used, c.records)
                  && (!options.developmentCache ==> AllCompared(sources)))
      ensures r.Ok? ==> data.Keys == NamesIn(snapshot.value.segments)
      ensures r.Ok? && options.developmentCache ==> Saved(options, sources, sequence)
      ensures r.Ok? ==> r.value.changed && r.value.sequence == sequence
                        && r.value.blockCount == |snapshot.value.blocks| == r.value.reusedBlocks + r.value.newBlocks
                        && r.value.fileCount == |sources| && r.value.newSegments == |c.records|
                        && r.value.newSegmentBytes == c.newSegmentBytes && r.value.newBlocks == c.newBlocks
      ensures r.Ok? ==>
                LedgerOk(snapshot.value.segments, snapshot.value.blocks) && r.value.storage == StatsOf(snapshot.value)
                        && (c.used == map[] ==> r.value.storage.stranded == 0)
    {
      hide ToolSound, BuildContext.Holding, SnapshotOk, AssetsOk, FileTrue, LinesOf, SnapshotLines, LedgerOk,
           SourcesListed, PayloadTotal, FileTotal, AllStored, NamesApart, Resolved, FreshUids, StatsOf, PrintedOk,
           SavedFor, PressSound, AllCompared, Extends, Cleaned, NamesIn, Listed, Written, PathsProper, Merged,
           Fingerprint, ReleaseHolds, NamedByContent, Crowded, Unverifiable;
      ExtendsSelf(data);
      PathsListedProper(options, sources);
      var staged := StageRelease(c, options, sources, sequence);
      if staged.Err? {
        return Err(staged.error);
      }
      var (s, storage, pages) := staged.value;
      if c.used == map[] {
        FullBuildStrandsNothing(c, sequence, s);
      }
      WrittenHolds(c, sequence, s, sources);
      ReportedCounts(c, sequence, s);
      var committed := CommitRelease(s, pages, Merged(c.library, c.records, c.manifests), options, sources);
      if committed.Err? {
        return Err(committed.error);
      }
      return Ok(PackReport(true, sequence, |sources|, |s.blocks|, c.reusedBlocks, c.newBlocks, |c.records|,
                           c.newSegmentBytes, storage));
    }

    /** Opens the release in place and loads what it offers for reuse and the development cache. */
    method LoadPrevious(options: Options, ghost sources: seq<SourceFile>) returns (r: Result<(ReuseLoad, CacheEntries)>)
      requires Valid() && SourcesListed(options, sources, honest, canonical)
      modifies this`faults
      ensures faults >= old(faults)
      ensures r.Err? ==> snapshot.Some? && faults > old(faults)
      ensures r.Ok? ==> EntriesTrue(tool, r.value.1, sources)
                        && r.value.1 == EntriesIn(tool, projectId, canonical, snapshot, cacheFile, options)
      ensures r.Ok? ==>
                NamesDistinct(r.value.0.segments) && ReuseOk(tool, r.value.0.blocks, r.value.0.segments, library)
                        && LibraryOk(tool, projectId, data, r.value.0.segments, library)
      ensures snapshot.Some? ==> |snapshot.value.chunkIds| == |snapshot.value.blocks|
      ensures r.Ok? ==> if options.incremental && snapshot.Some?
                        then OffersRight(tool, r.value.0, snapshot.value, library)
                        else r.value.0 == ReuseLoad(false, map[], [])
    {
      hide ToolSound, SnapshotOk, AssetsOk, FileTrue, SnapshotLines, SourcesListed, EntriesTrue, ReuseOk, OffersOnly,
           OffersAll, OffersFirst, NamesDistinct, LibraryOk, PrintedOk, PressSound, CacheTrue, PathsProper,
           NamedByContent;
      if snapshot.Some? {
        SnapshotParts(tool, projectId, data, library, snapshot.value);
      }
      var opens: bool := *;
      if snapshot.Some? && !opens {
        faults := faults + 1;
        return Err(Io);
      }
      var entries := LoadCache(options);
      if entries.Err? {
        return Err(entries.error);
      }
      CacheUsable(tool, honest, entries.value, options, sources, canonical);
      var offered: Option<Snapshot> := if options.incremental then snapshot else None;
      var press := PressFor(if snapshot.Some? then snapshot.value.sequence else 0);
      var reuse, failed := LoadReuseIndex(offered, press, printed, tool, projectId, data, library);
      faults := faults + failed;
      if reuse.Err? {
        return Err(reuse.error);
      }
      NothingToReuse(tool, projectId, data, library);
      return Ok((reuse.value, entries.value));
    }

    /** Packs the sources into segment files beside those of the release in place. */
    method FillData(options: Options, sources: seq<SourceFile>, tape: seq<Draw>, reuse: ReuseLoad,
                    entries: CacheEntries) returns (c: BuildContext, r: Result<()>)
      requires Valid() && TapeOk(tape) && NamesDistinct(reuse.segments)
      requires LibraryOk(tool, projectId, data, reuse.segments, library)
      requires ReuseOk(tool, reuse.blocks, reuse.segments, library)
      requires EntriesTrue(tool, entries, sources) && forall i :: 0 <= i < |sources| ==> sources[i].len < U64_LIMIT
      requires options.incremental && snapshot.Some? ==>
                 && |snapshot.value.chunkIds| == |snapshot.value.blocks|
                 && OffersRight(tool, reuse, snapshot.value, library)
      modifies this`data, this`faults
      ensures Valid() && c.data == data && faults >= old(faults)
      ensures r.Err? ==>
                faults > old(faults)
                || Unpackable(tool, options, RememberedFiles(tool, options, snapshot, entries, sources), |tape|,
                              sources)
      ensures fresh(c) && c.tool == tool && c.options == options && c.projectId == projectId && c.tape == tape
      ensures c.reuseIndex == reuse.blocks && c.reuseSegments == reuse.segments && c.library == library
      ensures r.Ok? ==> Packed(c, sources)
                        && AllStored(tool, projectId, c.data, c.records, c.manifests, c.kinds, c.tape,
                                     options.targetBytes)
    {
      hide ToolSound, BuildContext.Holding, SnapshotOk, AssetsOk, FileTrue, LinesOf, SnapshotLines, AllStored, Extends,
           EntriesTrue, TapeOk, ReuseOk, NamesDistinct, LibraryOk, PrintedOk, PressSound, PathsProper, NamedByContent,
           Adds, Unpackable, RememberedFiles, SparedFiles, OffersRight;
      RememberedAreSpared(tool, options, reuse, snapshot, library, entries, sources);
      c, r := RunBuild(tool, options, projectId, tape, reuse, data, library, sources, entries);
      if r.Err? && c.faults == 0 {
        SparedMore(tool, options, RememberedFiles(tool, options, snapshot, entries, sources),
                   SparedFiles(tool, options, reuse.blocks, reuse.segments, entries, sources), |tape|, sources);
      }
      faults := faults + c.faults;
      StillNamed(tool, data, c.data);
      if snapshot.Some? {
        SnapshotStays(tool, projectId, data, c.data, library, snapshot.value);
      }
      data := c.data;
    }

    /** Puts a new release in place of the one that the build has read, with what it carries over of that. */
    method ReplaceRelease(c: BuildContext, options: Options, sources: seq<SourceFile>, tape: seq<Draw>,
                          ghost reuse: ReuseLoad, sequence: nat) returns (r: Result<PackReport>)
      requires Valid() && Buildable(options, sources, tape)
      requires sequence == NextSequence(snapshot, options.floor) < U64_LIMIT
      requires Packed(c, sources) && c.tool == tool && c.options == options && c.projectId == projectId
      requires c.tape == tape
      requires c.data == data && c.reuseIndex == reuse.blocks && c.reuseSegments == reuse.segments
      requires AllStored(c.tool, c.projectId, c.data, c.records, c.manifests, c.kinds, c.tape, c.options.targetBytes)
      requires snapshot.Some? ==> |snapshot.value.chunkIds| == |snapshot.value.blocks|
      requires if options.incremental && snapshot.Some? then
                 reuse.segments == snapshot.value.segments
                 && OffersOnly(reuse.blocks, snapshot.value, ChosenOf(snapshot.value))
               else reuse == ReuseLoad(false, map[], [])
      modifies this
      ensures Valid() && faults >= old(faults) && misfits >= old(misfits)
      ensures r.Err? ==> faults > old(faults) || misfits > old(misfits)
                         || Crowded(tool, options, c.reuseSegments, sources) || Unverifiable(options, sources)
      ensures (snapshot == old(snapshot) && library == old(library) && r.Err?)
              || Replaced(old(snapshot), options, sources, tape, |c.records|)
      ensures r.Ok? ==> data.Keys == NamesIn(snapshot.value.segments)
      ensures r.Ok? && options.developmentCache ==> Saved(options, sources, sequence)
      ensures r.Ok? ==> r.value.changed && r.value.sequence == snapshot.value.sequence
                        && r.value.blockCount == |snapshot.value.blocks| == r.value.reusedBlocks + r.value.newBlocks
                        && r.value.fileCount == |sources| && r.value.newSegments == |c.records|
                        && r.value.newBlocks == c.newBlocks
      ensures r.Ok? ==>
                LedgerOk(snapshot.value.segments, snapshot.value.blocks) && r.value.storage == StatsOf(snapshot.value)
                && (!options.incremental ==> r.value.storage.stranded == 0)
    {
      hide ToolSound, BuildContext.Holding, SnapshotOk, AssetsOk, FileTrue, LinesOf, SnapshotLines, LedgerOk,
           SourcesListed, PayloadTotal, FileTotal, AllStored, FreshUids, StatsOf, TapeOk, OffersOnly, CarriedOver,
           UidsDrawn, Listed, PrintedOk, SavedFor, PressSound, AllCompared, NamesIn, PathsProper, Fingerprint, Extends,
           NamedByContent, Crowded, Unverifiable;
      ghost var previous := snapshot;
      FreshToReuse(tape, previous, reuse.segments);
      r := NewRelease(c, options, sources, sequence);
      if snapshot != previous || r.Ok? {
        OnlyOffered(c, previous, reuse, options.incremental, snapshot.value);
      }
    }

    /** What a report says of the release in place. */
    ghost predicate Reported(r: PackReport, before: Option<Snapshot>, options: Options, sources: seq<SourceFile>,
                             tape: seq<Draw>, created: nat)
      requires ToolSound(tool)
      reads this
    {
      && Contains(options, sources) && data.Keys == NamesIn(snapshot.value.segments)
      && r.sequence == snapshot.value.sequence >= options.floor && r.fileCount == |sources|
      && LedgerOk(snapshot.value.segments, snapshot.value.blocks) && r.storage == StatsOf(snapshot.value)
      && (options.developmentCache ==> Saved(options, sources, snapshot.value.sequence))
      && (!r.changed <==> NothingToDo(tool, before, options, sources))
      && (!r.changed ==> snapshot == before)
      && (r.changed ==>
            && Replaced(before, options, sources, tape, created) && r.newSegments == created
            && r.blockCount == |snapshot.value.blocks| == r.reusedBlocks + r.newBlocks
            && (!options.incremental ==> r.storage.stranded == 0))
    }

    /** Settles the segment files. Then the release in place is kept if there is nothing to do, and replaced
    otherwise. */
    method InstallRelease(c: BuildContext, options: Options, sources: seq<SourceFile>, tape: seq<Draw>,
                          reuse: ReuseLoad, sequence: nat) returns (r: Result<PackReport>, ghost created: nat)
      requires Valid() && Buildable(options, sources, tape)
      requires sequence == NextSequence(snapshot, options.floor) < U64_LIMIT
      requires Packed(c, sources) && c.tool == tool && c.options == options && c.projectId == projectId
      requires c.tape == tape
      requires c.data == data && c.reuseIndex == reuse.blocks && c.reuseSegments == reuse.segments
      requires AllStored(c.tool, c.projectId, c.data, c.records, c.manifests, c.kinds, c.tape, c.options.targetBytes)
      requires snapshot.Some? ==> |snapshot.value.chunkIds| == |snapshot.value.blocks|
      requires if options.incremental && snapshot.Some? then
                 OffersRight(tool, reuse, snapshot.value, library)
               else reuse == ReuseLoad(false, map[], [])
      modifies this
      ensures Valid() && faults >= old(faults) && misfits >= old(misfits)
      ensures r.Err? ==> faults > old(faults) || misfits > old(misfits)
                         || Crowded(tool, options, EarlierSegments(old(snapshot), options), sources)
                         || Unverifiable(options, sources)
      ensures (snapshot == old(snapshot) && library == old(library))
              || (Replaced(old(snapshot), options, sources, tape, created)
                  && !NothingToDo(tool, old(snapshot), options, sources))
      ensures r.Ok? ==> Reported(r.value, old(snapshot), options, sources, tape, created)
                        && r.value.newBlocks <= c.newBlocks
    {
      hide ToolSound, BuildContext.Holding, SnapshotOk, AssetsOk, FileTrue, LinesOf, SnapshotLines, LedgerOk,
           SourcesListed, PayloadTotal, FileTotal, AllStored, NamesApart, FreshUids, StatsOf, EntriesTrue, Extends,
           TapeOk, ReuseOk, OffersOnly, CarriedOver, UidsDrawn, NamesDistinct, LibraryOk, Listed, PrintedOk, SavedFor,
           PressSound, AllCompared, Cleaned, NamesIn, PathsProper, Fingerprint, ReleaseHolds, NamedByContent, Crowded,
           Unverifiable, Unpackable, MissingIn, AllChunks, PathBytes, OffersAll, OffersFirst;
      created := 0;
      if c.records != [] {
        var synced: bool := *;
        if !synced {
          faults := faults + 1;
          return Err(Io), created;
        }
      }
      if options.incremental && !reuse.compacting && snapshot.Some? && snapshot.value.fingerprint == c.fingerprint
         && snapshot.value.sequence >= options.floor
      {
        r := KeepRelease(c, options, sources);
        return;
      }
      r := ReplaceRelease(c, options, sources, tape, reuse, sequence);
      created := |c.records|;
    }

    /** One build. When it succeeds the release in place contains exactly these sources, with every asset in segments
    of its availability, whatever earlier builds did. When it fails, the release in place is the old one or already
    the new one: complete, under the next sequence and with all its segments. `created` counts the new segments. */
    method Build(options: Options, sources: seq<SourceFile>, tape: seq<Draw>)
      returns (r: Result<PackReport>, ghost created: nat)
      requires Valid() && Buildable(options, sources, tape)
      modifies this
      ensures Valid() && (snapshot.Some? ==> NamesIn(snapshot.value.segments) <= data.Keys)
      ensures faults >= old(faults) && misfits >= old(misfits)
      ensures r.Err? ==> faults > old(faults) || misfits > old(misfits)
                         || Refusable(tool, canonical, old(snapshot),
                                      EntriesIn(tool, projectId, canonical, old(snapshot), old(cacheFile), options),
                                      options, sources, |tape|)
      ensures r.Ok? ==> r.value.newBlocks <= |NewKeys(tool, options, old(snapshot), sources)|
      ensures (snapshot == old(snapshot) && library == old(library))
              || (Replaced(old(snapshot), options, sources, tape, created)
                  && !NothingToDo(tool, old(snapshot), options, sources))
      ensures !options.Accepted(canonical) ==> r.Err? && snapshot == old(snapshot) && data == old(data)
      ensures r.Ok? ==> Contains(options, sources) && data.Keys == NamesIn(snapshot.value.segments)
      ensures r.Ok? ==> r.value.sequence == snapshot.value.sequence >= options.floor && r.value.fileCount == |sources|
                        && LedgerOk(snapshot.value.segments, snapshot.value.blocks)
                        && r.value.storage == StatsOf(snapshot.value)
      ensures r.Ok? && options.developmentCache ==> Saved(options, sources, snapshot.value.sequence)
      ensures r.Ok? ==> (!r.value.changed <==> NothingToDo(tool, old(snapshot), options, sources))
      ensures r.Ok? && !r.value.changed ==> snapshot == old(snapshot)
      ensures r.Ok? && r.value.changed ==>
                && Replaced(old(snapshot), options, sources, tape, created) && r.value.newSegments == created
                && r.value.blockCount == |snapshot.value.blocks| == r.value.reusedBlocks + r.value.newBlocks
                && (!options.incremental ==> r.value.storage.stranded == 0)
    {
      hide ToolSound, BuildContext.Holding, SnapshotOk, AssetsOk, FileTrue, LinesOf, SnapshotLines, LedgerOk,
           SourcesListed, PayloadTotal, FileTotal, AllStored, NamesApart, FreshUids, StatsOf, EntriesTrue, Extends,
           TapeOk, ReuseOk, OffersOnly, OffersAll, CarriedOver, UidsDrawn, NamesDistinct, LibraryOk, Listed, PrintedOk,
           SavedFor, PressSound, AllCompared, Cleaned, NamesIn, PathsProper, Fingerprint, ReleaseHolds, NamedByContent,
           Crowded, Unverifiable, Uncacheable, Unpackable, OffersFirst, NewKeys, MissingIn, AllChunks, PathBytes,
           EntriesIn, RememberedFiles, SparedFiles, OffersRight, ChosenOf, EarlierSegments, Refusable;
      created := 0;
      RefusableWhen(tool, canonical, snapshot, EntriesIn(tool, projectId, canonical, snapshot, cacheFile, options),
                    options, sources, |tape|);
      NamesOnDisk();
      if !options.Accepted(canonical) {
        return Err(InvalidInput), created;
      }
      var loaded := LoadPrevious(options, sources);
      if loaded.Err? {
        return Err(loaded.error), created;
      }
      var (reuse, entries) := loaded.value;
      var sequence := NextSequence(snapshot, options.floor);
      if sequence >= U64_LIMIT {
        return Err(InvalidInput), created;
      }
      LensListed(options, sources, honest, canonical);
      var c, packed := FillData(options, sources, tape, reuse, entries);
      NamesOnDisk();
      if packed.Err? {
        return Err(packed.error), created;
      }
      FewAreSealed(c, options, reuse, snapshot, library, sources);
      r, created := InstallRelease(c, options, sources, tape, reuse, sequence);
      NamesOnDisk();
    }

    lemma PathsListedProper(options: Options, sources: seq<SourceFile>)
      requires SourcesListed(options, sources, honest, canonical)
      ensures PathsProper(sources)
    {
      hide PathsDistinct;
    }

    /** Whatever is asked of the release in place, over the printed files: its catalog is parsed, the path is looked
    up in it, and any history of reads, seeks, prefetches and trims on the asset found answers as slicing the
    source's content would. Exactly the paths of the sources are found. */
    method Read(budget: Budget, path: Bytes, ops: seq<Op>, ghost options: Options, ghost sources: seq<SourceFile>)
      returns (r: Result<Option<seq<Outcome>>>, ghost i: nat, ghost faults: nat)
      requires Valid() && Contains(options, sources)
      requires budget.pageBytes < USIZE_MAX && budget.blockBytes < USIZE_MAX && budget.prefetchBytes < USIZE_MAX
      ensures r.Err? <==> !canonical(path)
      ensures r.Ok? ==> (r.value.Some? <==> exists k :: 0 <= k < |sources| && sources[k].path == path)
      ensures r.Ok? && r.value.Some? ==>
                && i < |sources| && sources[i].path == path && Follows(ContentOf(sources[i]), 0, ops, r.value.value)
                && (AllCompared(sources) ==> Follows(sources[i].body, 0, ops, r.value.value))
                && (faults == 0 ==> Failed !in r.value.value)
    {
      hide ToolSound, SnapshotOk, AssetsOk, SnapshotLines, PrintedOk, FileTrue, PressSound, Follows, PathsDistinct;
      var s := snapshot.value;
      assert PressSound(PressFor(s.sequence));
      r, i, faults := ReadPublished(tool, projectId, data, library, s, PressFor(s.sequence), printed, budget, path, ops,
                                    options, sources);
    }

    lemma NamesOnDisk()
      requires Valid()
      ensures snapshot.Some? ==> NamesIn(snapshot.value.segments) <= data.Keys
    {
      hide PathsProper, ToolSound, AssetsOk, PrintedOk, FileTrue, PressSound, ById, BlockAt, SegmentNeeded, FileTotal,
           SnapshotLines, Holds, SegmentFile;
      if snapshot.Some? {
        var s := snapshot.value;
        forall i | 0 <= i < |s.segments|
          ensures s.segments[i].id in data
        {
          assert Stored(tool, projectId, data, s.segments[i], library[s.segments[i].id]);
        }
      }
    }
  }

  /** A strict build cannot verify the files, a development build not list them in its cache. */
  ghost predicate Unverifiable(options: Options, sources: seq<SourceFile>) {
    if options.developmentCache then exists i :: 0 <= i < |sources| && !StampFits(sources[i].stamp)
    else exists i :: 0 <= i < |sources| && !Comparable(sources[i])
  }

  /** Why a build may be refused although no file operation fails, as its options, the listing of its files, the
  draws at hand, the release before and the entries of the development cache tell: options out of range, sequences
  exhausted, a file that is no longer as it was listed and would have to be opened, or more than a release is sure to
  have room for. */
  ghost predicate Refusable(t: Tool, canonical: Bytes -> bool, before: Option<Snapshot>, entries: CacheEntries,
                            options: Options, sources: seq<SourceFile>, draws: nat)
    requires ToolSound(t)
  {
    || !options.Accepted(canonical) || NextSequence(before, options.floor) >= U64_LIMIT
    || Unpackable(t, options, RememberedFiles(t, options, before, entries, sources), draws, sources)
    || Unverifiable(options, sources)
    || Crowded(t, options, EarlierSegments(before, options), sources)
  }

  lemma RefusableWhen(t: Tool, canonical: Bytes -> bool, before: Option<Snapshot>, entries: CacheEntries,
                      options: Options, sources: seq<SourceFile>, draws: nat)
    requires ToolSound(t)
    ensures !options.Accepted(canonical) || NextSequence(before, options.floor) >= U64_LIMIT
            || Unpackable(t, options, RememberedFiles(t, options, before, entries, sources), draws, sources)
            || Unverifiable(options, sources) || Crowded(t, options, EarlierSegments(before, options), sources) ==>
              Refusable(t, canonical, before, entries, options, sources, draws)
  {
    hide ToolSound, Unpackable, RememberedFiles, Unverifiable, Crowded, EarlierSegments;
  }

  /** The segments of which a build may use blocks. */
  function EarlierSegments(before: Option<Snapshot>, options: Options): seq<SegmentRecord> {
    if options.incremental && before.Some? then before.value.segments else []
  }

  lemma FewerAreNamed(t: Tool, data: map<Bytes, Bytes>, fewer: map<Bytes, Bytes>)
    requires NamedByContent(t, data) && Extends(fewer, data)
    ensures NamedByContent(t, fewer)
  {
  }

  /** Every source was found, on reading it again, as it was packed. */
  ghost predicate AllCompared(sources: seq<SourceFile>) {
    forall i :: 0 <= i < |sources| ==> sources[i].steady && sources[i].body == ContentOf(sources[i])
  }

  /** No chunk is sealed twice, nor one that is found in the release before. */
  lemma FewAreSealed(c: BuildContext, options: Options, r: ReuseLoad, before: Option<Snapshot>,
                     library: map<Bytes, Manifest>, sources: seq<SourceFile>)
    requires ToolSound(c.tool) && Packed(c, sources) && c.options == options
    requires c.reuseIndex == r.blocks && c.reuseSegments == r.segments
    requires options.incremental && before.Some? ==>
               |before.value.chunkIds| == |before.value.blocks| && OffersRight(c.tool, r, before.value, library)
    ensures c.newBlocks <= |NewKeys(c.tool, options, before, sources)|
  {
    SealedAreKept(c);
    hide ToolSound, BuildContext.Holding, AssetsOk, LinesOf, AllChunks, PathBytes, MissingIn, NewKeys, OffersRight;
    MissingInAreNew(c.tool, options, r, before, library, sources, |sources|);
    assert sources[..|sources|] == sources;
    SetSums.SubsetSize(c.sealedFor, NewKeys(c.tool, options, before, sources));
  }

  lemma SealedAreKept(c: BuildContext)
    requires c.Valid()
    ensures c.newBlocks <= |c.sealedFor|
  {
    hide ToolSound, CurrentOk, SegmentsOk, AllReferenced, NoneEmpty, LibraryOk, ReuseOk, UsedOk, TapeOk, NamesDistinct,
         BlocksOk, Frugal, NamedByContent;
  }

  lemma WrittenHolds(c: BuildContext, sequence: nat, s: Snapshot, sources: seq<SourceFile>)
    requires ToolSound(c.tool) && Packed(c, sources) && Written(c, sequence, s)
    ensures |c.records| == |c.manifests|
    ensures ReleaseHolds(c.tool, c.projectId, c.data, Merged(c.library, c.records, c.manifests), s, c.options, sources)
    ensures s.sequence == sequence
  {
    hide ToolSound, BuildContext.Holding, SnapshotOk, AssetsOk, LinesOf, SnapshotLines, Merged, Resolved;
  }

  /** The release in place is for these very sources and options, respects the floor and has nothing to rewrite. */
  ghost predicate NothingToDo(t: Tool, previous: Option<Snapshot>, options: Options, sources: seq<SourceFile>)
    requires ToolSound(t)
  {
    && options.incremental && previous.Some? && |previous.value.chunkIds| == |previous.value.blocks|
    && ChosenOf(previous.value) == {} && previous.value.fingerprint == Fingerprint(t, options, sources)
    && previous.value.sequence >= options.floor
  }

  /** A carried-over segment is one that was not chosen for rewriting, and no more segments are new than the
  build created. */
  ghost predicate CarriedOver(previous: Option<Snapshot>, s: Snapshot, newSegments: nat) {
    && (previous.Some? ==>
          && |previous.value.chunkIds| == |previous.value.blocks|
          && forall x :: x in s.segments && x in previous.value.segments ==> NotChosen(x, previous.value))
    && exists news: set<SegmentRecord> :: NewOnes(news, previous, s, newSegments)
  }

  /** What is not carried over was given its uid by this build. */
  ghost predicate UidsDrawn(previous: Option<Snapshot>, s: Snapshot, tape: seq<Draw>) {
    forall x :: x in s.segments ==> (previous.Some? && x in previous.value.segments) || HasUid(tape, x.uid)
  }

  ghost predicate HasUid(tape: seq<Draw>, uid: Bytes) {
    exists k :: 0 <= k < |tape| && tape[k].uid == uid
  }

  ghost predicate NewOnes(news: set<SegmentRecord>, previous: Option<Snapshot>, s: Snapshot, newSegments: nat) {
    && |news| <= newSegments
    && forall x :: x in s.segments ==> x in news || (previous.Some? && x in previous.value.segments)
  }

  ghost predicate NotChosen(x: SegmentRecord, s: Snapshot)
    requires |s.chunkIds| <= |s.blocks|
  {
    exists i :: 0 <= i < |s.segments| && s.segments[i] == x && i !in ChosenOf(s)
  }

  lemma ReportedCounts(c: BuildContext, sequence: nat, s: Snapshot)
    requires c.Valid() && Written(c, sequence, s)
    ensures |s.blocks| == |c.pending| == c.reusedBlocks + c.newBlocks
    ensures Listed(s.segments, c.used, c.records)
  {
    hide ToolSound, CurrentOk, SegmentsOk, AllReferenced, NoneEmpty, LibraryOk, ReuseOk, UsedOk, TapeOk, NamesDistinct,
         BlocksOk, ById, BlockAt, SegmentNeeded, FileTotal, Assigned, Frugal, SealedOnce, NamedByContent;
  }

  lemma CleanedWithin(data: map<Bytes, Bytes>, segments: seq<SegmentRecord>)
    ensures Extends(Cleaned(data, segments), data) && Extends(Cleaned(data, segments), Cleaned(data, segments))
  {
  }

  lemma LedgerOfSnapshot(t: Tool, projectId: Bytes, data: map<Bytes, Bytes>, library: map<Bytes, Manifest>, s: Snapshot)
    requires SnapshotOk(t, projectId, data, library, s)
    ensures LedgerOk(s.segments, s.blocks)
  {
    hide LibraryOk, ById, SegmentNeeded, BlockAt, FileTotal, PayloadTotal, Backed, LedgerOk;
    SnapshotIsBacked(t, projectId, data, library, s);
    Conservation(s.segments, s.blocks, ManifestsOf(s.segments, library));
  }

  lemma CacheUsable(t: Tool, honest: (Bytes, Stamp) -> Bytes, entries: CacheEntries, options: Options,
                    sources: seq<SourceFile>, canonical: Bytes -> bool)
    requires ToolSound(t) && CacheTrue(t, honest, entries) && SourcesListed(options, sources, honest, canonical)
    requires entries != map[] ==> options.developmentCache
    ensures EntriesTrue(t, entries, sources)
  {
    hide ToolSound, CacheTrue, SourcesListed, EntryTrue;
    if entries != map[] {
      TrueEntries(t, honest, entries, options, sources, canonical);
    }
  }

  lemma SnapshotParts(t: Tool, projectId: Bytes, data: map<Bytes, Bytes>, library: map<Bytes, Manifest>, s: Snapshot)
    requires SnapshotOk(t, projectId, data, library, s)
    ensures LibraryOk(t, projectId, data, s.segments, library) && NamesDistinct(s.segments)
    ensures |s.chunkIds| == |s.blocks|
  {
    hide LibraryOk, BlockAt, SegmentNeeded, FileTotal, NamesDistinct;
    ByIdDistinct(s.segments);
  }

  lemma NothingToReuse(t: Tool, projectId: Bytes, data: map<Bytes, Bytes>, library: map<Bytes, Manifest>)
    ensures LibraryOk(t, projectId, data, [], library) && NamesDistinct([]) && ReuseOk(t, map[], [], library)
  {
  }

  lemma LensListed(options: Options, sources: seq<SourceFile>, honest: (Bytes, Stamp) -> Bytes,
                   canonical: Bytes -> bool)
    requires SourcesListed(options, sources, honest, canonical)
    ensures forall i :: 0 <= i < |sources| ==> sources[i].len < U64_LIMIT
  {
  }

  lemma FreshToReuse(tape: seq<Draw>, previous: Option<Snapshot>, segments: seq<SegmentRecord>)
    requires previous.Some? ==> FreshUids(tape, previous.value.segments)
    requires segments == [] || (previous.Some? && segments == previous.value.segments)
    ensures FreshUids(tape, segments)
  {
  }

  lemma OnlyOffered(c: BuildContext, previous: Option<Snapshot>, reuse: ReuseLoad, incremental: bool, s: Snapshot)
    requires c.Valid() && Listed(s.segments, c.used, c.records)
    requires AllStored(c.tool, c.projectId, c.data, c.records, c.manifests, c.kinds, c.tape, c.options.targetBytes)
    requires c.reuseIndex == reuse.blocks && c.reuseSegments == reuse.segments
    requires previous.Some? ==>
              FreshUids(c.tape, previous.value.segments) && |previous.value.chunkIds| == |previous.value.blocks|
    requires if incremental && previous.Some? then
               reuse.segments == previous.value.segments
               && OffersOnly(reuse.blocks, previous.value, ChosenOf(previous.value))
             else reuse == ReuseLoad(false, map[], [])
    ensures CarriedOver(previous, s, |c.records|) && UidsDrawn(previous, s, c.tape)
    ensures !incremental ==> c.used == map[]
  {
    hide BuildContext.Holding, AllStored, UsedOk, ById, Offered, OffersOnly, NotChosen, HasUid, FreshUids, RecordSet;
    UsedAreOffered(c);
    RecordsAreDrawn(c, previous);
    if !incremental {
      NoneOffered(c.used, c.reuseSegments);
    }
    var news := RecordSet(c.records);
    forall x | x in s.segments
      ensures x in news || (previous.Some? && x in previous.value.segments && NotChosen(x, previous.value))
    {
      if Some(x) !in c.records {
        assert Offered(x, c.reuseIndex, c.reuseSegments);
        OfferedIsCarried(x, previous, reuse, incremental);
      }
    }
    assert NewOnes(news, previous, s, |c.records|);
  }

  lemma OfferedIsCarried(x: SegmentRecord, previous: Option<Snapshot>, reuse: ReuseLoad, incremental: bool)
    requires previous.Some? ==> |previous.value.chunkIds| == |previous.value.blocks|
    requires if incremental && previous.Some? then
               reuse.segments == previous.value.segments
               && OffersOnly(reuse.blocks, previous.value, ChosenOf(previous.value))
             else reuse == ReuseLoad(false, map[], [])
    requires Offered(x, reuse.blocks, reuse.segments)
    ensures previous.Some? && x in previous.value.segments && NotChosen(x, previous.value)
  {
  }

  lemma DrawnIsNew(tape: seq<Draw>, k: nat, x: SegmentRecord, previous: Option<Snapshot>)
    requires k < |tape| && tape[k].uid == x.uid && (previous.Some? ==> FreshUids(tape, previous.value.segments))
    ensures HasUid(tape, x.uid) && (previous.Some? ==> x !in previous.value.segments)
  {
  }

  lemma UsedAreOffered(c: BuildContext)
    requires c.Valid()
    ensures UsedOk(c.used, c.reuseIndex, c.reuseSegments)
    ensures forall id :: id in c.used ==> Offered(c.used[id], c.reuseIndex, c.reuseSegments)
  {
    hide ToolSound, CurrentOk, SegmentsOk, AllReferenced, NoneEmpty, LibraryOk, ReuseOk, TapeOk, NamesDistinct,
         BlocksOk, Frugal, SealedOnce, NamedByContent;
  }

  ghost function RecordSet(records: seq<Option<SegmentRecord>>): set<SegmentRecord> {
    set k | 0 <= k < |records| && records[k].Some? :: records[k].value
  }

  /** The finished segments have uids of this build, hence none of the release before. */
  lemma RecordsAreDrawn(c: BuildContext, previous: Option<Snapshot>)
    requires AllStored(c.tool, c.projectId, c.data, c.records, c.manifests, c.kinds, c.tape, c.options.targetBytes)
    requires previous.Some? ==> FreshUids(c.tape, previous.value.segments)
    ensures |RecordSet(c.records)| <= |c.records|
    ensures forall x :: Some(x) in c.records ==> x in RecordSet(c.records)
    ensures forall x :: x in RecordSet(c.records) ==>
              HasUid(c.tape, x.uid) && (previous.Some? ==> x !in previous.value.segments)
  {
    hide Stored, Bounded, TargetBytes, FreshUids, HasUid;
    SetOfRecords(c.records);
    forall x | x in RecordSet(c.records)
      ensures HasUid(c.tape, x.uid) && (previous.Some? ==> x !in previous.value.segments)
    {
      var k :| 0 <= k < |c.records| && c.records[k] == Some(x);
      assert FinishedOk(c.tool, c.projectId, c.data, x, c.manifests[k], c.kinds[k], c.tape[k], c.options.targetBytes);
      DrawnIsNew(c.tape, k, x, previous);
    }
  }

  lemma NoneOffered(used: map<Bytes, SegmentRecord>, segments: seq<SegmentRecord>)
    requires UsedOk(used, map[], segments)
    ensures used == map[]
  {
    assert forall id :: id in used ==> Offered(used[id], map[], segments);
  }

  lemma {:induction false} SetOfRecords(records: seq<Option<SegmentRecord>>)
    ensures |RecordSet(records)| <= |records|
  {
    if records != [] {
      var n := |records| - 1;
      SetOfRecords(records[..n]);
      OneMoreRecord(records, n);
    }
  }

  lemma OneMoreRecord(records: seq<Option<SegmentRecord>>, n: nat)
    requires |records| == n + 1
    ensures RecordSet(records)
         == RecordSet(records[..n]) + if records[n].Some? then {records[n].value} else {}
  {
    var all, rest := RecordSet(records), RecordSet(records[..n]);
    forall x
      ensures x in all <==> x in rest || Some(x) == records[n]
    {
      if x in all && Some(x) != records[n] {
        var k :| 0 <= k < |records| && records[k] == Some(x);
        assert records[..n][k] == Some(x);
      }
      if x in rest {
        var k :| 0 <= k < n && records[..n][k] == Some(x);
        assert records[k] == Some(x);
      }
    }
  }
}
