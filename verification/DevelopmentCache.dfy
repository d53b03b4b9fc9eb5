/** The development cache of a build: what its entries mean, how they are collected, saved and loaded. */
module DevelopmentCaches {
  import opened Basics
  import opened Wire
  import opened Records
  import opened BlockStore
  import opened Sources
  import opened SegmentStore
  import opened Placement
  import opened Rotation
  import opened Builds
  import opened Packing
  import opened Releases
  import opened Assets
  import BuildCacheFile

  /** The entries of the development cache that may be used. */
  type CacheEntries = map<Bytes, CachedEntry>

  function CachedFor(entries: CacheEntries, source: SourceFile): Option<CachedEntry> {
    if source.path in entries then Some(entries[source.path]) else None
  }

  /** The files that need not be opened. */
  ghost function SparedFiles(t: Tool, options: Options, index: ReuseIndex, segments: seq<SegmentRecord>,
                             entries: CacheEntries, sources: seq<SourceFile>): set<SourceFile> {
    set i | 0 <= i < |sources| && SparedFile(t, options, index, segments, entries, sources[i]) :: sources[i]
  }

  ghost predicate SparedFile(t: Tool, options: Options, index: ReuseIndex, segments: seq<SegmentRecord>,
                             entries: CacheEntries, source: SourceFile) {
    Spared(t, LookupFor(t, options, index, segments, source), options, source, CachedFor(entries, source))
  }

  ghost predicate EntriesTrue(t: Tool, entries: CacheEntries, sources: seq<SourceFile>)
    requires ToolSound(t)
  {
    forall i :: 0 <= i < |sources| && sources[i].path in entries && sources[i].len > 0 ==>
      EntryTrue(t, sources[i], entries[sources[i].path])
  }

  function StyleOf(e: CachedEntry): SourceClass {
    SourceClass(e.layout, e.fixedBlockLen, e.access, e.compression)
  }

  /** Cached entries list the real chunks of the content that the path had under the entry's stamp. */
  ghost predicate CacheTrue(t: Tool, honest: (Bytes, Stamp) -> Bytes, entries: CacheEntries)
    requires ToolSound(t)
  {
    forall path :: path in entries && entries[path].stamp.len > 0 ==>
        CachedTrue(t, honest(path, entries[path].stamp), entries[path])
  }

  ghost predicate CachedTrue(t: Tool, body: Bytes, e: CachedEntry)
    requires ToolSound(t)
  {
    assert CutsAll(t.cut(body), |body|);
    ClassOk(StyleOf(e)) && e.chunks == ChunkList(t, Chunks(t, StyleOf(e), body))
  }

  /** The listing of the input directory: one file a canonical path, sizes as stamped; where the development cache is
  trusted, equal stamps mean equal content. */
  ghost predicate SourcesListed(options: Options, sources: seq<SourceFile>, honest: (Bytes, Stamp) -> Bytes,
                                canonical: Bytes -> bool)
  {
    && (forall i :: 0 <= i < |sources| ==>
        sources[i].len == sources[i].stamp.len < U64_LIMIT && canonical(sources[i].path))
    && PathsDistinct(sources)
    && (options.developmentCache ==>
          forall i :: 0 <= i < |sources| && sources[i].len > 0 ==>
              sources[i].body == honest(sources[i].path, sources[i].stamp))
  }

  lemma TrueEntries(t: Tool, honest: (Bytes, Stamp) -> Bytes, entries: CacheEntries, options: Options,
                    sources: seq<SourceFile>, canonical: Bytes -> bool)
    requires ToolSound(t) && CacheTrue(t, honest, entries)
    requires SourcesListed(options, sources, honest, canonical) && options.developmentCache
    ensures EntriesTrue(t, entries, sources)
  {
    hide ToolSound;
    forall i | 0 <= i < |sources| && sources[i].path in entries && sources[i].len > 0
      ensures EntryTrue(t, sources[i], entries[sources[i].path])
    {
      var e := entries[sources[i].path];
      if e.stamp == sources[i].stamp {
        assert CachedTrue(t, honest(sources[i].path, e.stamp), e);
      }
    }
  }

  function EntryFor(t: Tool, options: Options, source: SourceFile, r: FileRecord,
                    chunks: seq<CachedChunk>): CachedEntry {
    CachedEntry(source.stamp, r.layout, r.fixedBlockLen, r.access, options.AvailabilityOf(source.path),
                Classify(t, source).compression, chunks)
  }

  /** What the next build may know of this one: for each file its stamp, its class and its chunks. */
  method CollectEntries(c: BuildContext, sources: seq<SourceFile>) returns (entries: seq<(Bytes, CachedEntry)>)
    requires ToolSound(c.tool) && Packed(c, sources)
    ensures EntriesDescribe(c.tool, c.options, sources, entries)
  {
    hide ToolSound, BuildContext.Holding, AssetAt, LinesOf, CachedTrue, EntryMatches;
    entries := [];
    for i := 0 to |sources|
      invariant |entries| == i && forall k :: 0 <= k < i ==> EntryDescribes(c.tool, c.options, sources[k], entries[k])
    {
      var record := c.fileRecords[i];
      FileEntry(c, sources, i);
      var start, end := record.firstBlock, record.firstBlock + record.blockCount;
      var ids, blocks := c.chunkIds[start..end], c.pending[start..end];
      var chunks := seq(|ids|, j requires 0 <= j < |ids| && |ids| == |blocks| =>
        CachedChunk(blocks[j].reference.logicalOffset, blocks[j].reference.plainLen, ids[j]));
      var e := EntryFor(c.tool, c.options, sources[i], record, chunks);
      EntryIsTrue(c, sources, i, e);
      entries := entries + [(sources[i].path, e)];
    }
  }

  /** The entry is the file's: its path, stamp and class, and its real chunks. */
  ghost predicate EntryDescribes(t: Tool, options: Options, source: SourceFile, entry: (Bytes, CachedEntry))
    requires ToolSound(t)
  {
    entry.0 == source.path && EntryMatches(t, options, source, entry.1)
    && (if source.len > 0 then CachedTrue(t, source.body, entry.1) else entry.1.chunks == [])
  }

  ghost predicate EntriesDescribe(t: Tool, options: Options, sources: seq<SourceFile>,
                                  entries: seq<(Bytes, CachedEntry)>)
    requires ToolSound(t)
  {
    |entries| == |sources| && forall i :: 0 <= i < |sources| ==> EntryDescribes(t, options, sources[i], entries[i])
  }

  lemma FileEntry(c: BuildContext, sources: seq<SourceFile>, i: nat)
    requires ToolSound(c.tool) && Packed(c, sources) && i < |sources| == |c.fileRecords|
    ensures c.fileRecords[i].firstBlock + c.fileRecords[i].blockCount <= |c.pending| == |c.chunkIds|
  {
    hide ToolSound, BuildContext.Holding, ChunksOf, OffsetOf;
    AllPlaced(c, c.chunkIds);
    assert AssetAt(c.tool, c.options, c.fileRecords, c.filePaths, c.pathPool, sources[i],
                   LinesOf(c.pending, c.plains, c.Here()), i);
  }

  lemma EntryIsTrue(c: BuildContext, sources: seq<SourceFile>, i: nat, e: CachedEntry)
    requires ToolSound(c.tool) && Packed(c, sources) && i < |sources| == |c.fileRecords|
    requires c.fileRecords[i].firstBlock + c.fileRecords[i].blockCount <= |c.pending| == |c.chunkIds|
    requires e == EntryFor(c.tool, c.options, sources[i], c.fileRecords[i], e.chunks)
    requires var r := c.fileRecords[i];
             |e.chunks| == r.blockCount && forall j :: 0 <= j < r.blockCount ==>
               e.chunks[j] == CachedChunk(c.pending[r.firstBlock + j].reference.logicalOffset,
                                          c.pending[r.firstBlock + j].reference.plainLen, c.chunkIds[r.firstBlock + j])
    ensures if sources[i].len > 0 then CachedTrue(c.tool, sources[i].body, e) else e.chunks == []
    ensures EntryMatches(c.tool, c.options, sources[i], e)
  {
    var r, source, lines := c.fileRecords[i], sources[i], LinesOf(c.pending, c.plains, c.Here());
    var chunks := ChunksOf(c.tool, source);
    assert ClassOk(Classify(c.tool, source));
    hide ToolSound, BuildContext.Holding, OffsetOf, Home;
    AllPlaced(c, c.chunkIds);
    assert AssetAt(c.tool, c.options, c.fileRecords, c.filePaths, c.pathPool, source, lines, i);
    forall j | 0 <= j < |chunks|
      ensures e.chunks[j] == CachedChunk(OffsetOf(chunks, j), |chunks[j]|, c.tool.hash(chunks[j]))
    {
      hide ChunksOf;
      var n := r.firstBlock + j;
      assert lines[n] == Line(OffsetOf(chunks, j), c.options.AvailabilityOf(source.path), chunks[j]);
      BlockFacts(c, n);
    }
    assert e.chunks == ChunkList(c.tool, chunks);
  }

  lemma BlockFacts(c: BuildContext, n: nat)
    requires c.Valid() && n < |c.pending| == |c.plains| == |c.chunkIds|
    ensures c.pending[n].reference.plainLen == |c.plains[n]| && c.chunkIds[n] == c.tool.hash(c.plains[n])
  {
    hide ToolSound, CurrentOk, SegmentsOk, AllReferenced, NoneEmpty, LibraryOk, ReuseOk, UsedOk, TapeOk, NamesDistinct,
         Frugal, SealedOnce, NamedByContent;
    GivesLength(c.pending[n], c.plains[n], Home(c.pending[n], c.Here()), c.Here());
  }

  // ------------------------------------------------------------------------- the file

  /** Whatever the file loads as, its entries are true. */
  ghost predicate FileTrue(t: Tool, honest: (Bytes, Stamp) -> Bytes, projectId: Bytes, canonical: Bytes -> bool,
                           bytes: Bytes)
    requires ToolSound(t)
  {
    forall sequence: nat :: LoadsTrue(t, honest, projectId, canonical, bytes, sequence)
  }

  ghost predicate LoadsTrue(t: Tool, honest: (Bytes, Stamp) -> Bytes, projectId: Bytes, canonical: Bytes -> bool,
                            bytes: Bytes, sequence: nat)
    requires ToolSound(t)
  {
    var loaded := BuildCacheFile.Loaded(bytes, projectId, sequence, t.hash, canonical);
    loaded.Some? ==> CacheTrue(t, honest, BuildCacheFile.MapOf(loaded.value))
  }

  /** The file is what a build of these sources saves under this sequence. */
  ghost predicate SavedFor(t: Tool, options: Options, projectId: Bytes, sequence: nat, sources: seq<SourceFile>,
                           bytes: Bytes)
    requires ToolSound(t)
  {
    exists entries :: SavedAs(t, options, projectId, sequence, sources, bytes, entries)
  }

  ghost predicate SavedAs(t: Tool, options: Options, projectId: Bytes, sequence: nat, sources: seq<SourceFile>,
                          bytes: Bytes, entries: seq<(Bytes, CachedEntry)>)
    requires ToolSound(t)
  {
    var f := BuildCacheFile.File(projectId, sequence, BuildCacheFile.RawsOf(entries));
    && EntriesDescribe(t, options, sources, entries) && BuildCacheFile.FileFits(f)
    && bytes == BuildCacheFile.FileBytes(f, t.hash)
    && |t.hash(BuildCacheFile.Payload(f))| == BuildCacheFile.CHECKSUM_SIZE
  }

  /** Values within the widths of their fields, which the program's types guarantee. */
  predicate EntriesTyped(entries: seq<(Bytes, CachedEntry)>) {
    forall i :: 0 <= i < |entries| ==> BuildCacheFile.EntryTyped(entries[i].1)
  }

  /** What the file system says of a file fits the fields of the cache file. */
  predicate StampFits(stamp: Stamp) {
    && Fits(stamp.len, 8) && Fits(stamp.device, 8) && Fits(stamp.inode, 8)
    && (stamp.modified.Some? ==> Fits(stamp.modified.value.0, 8) && Fits(stamp.modified.value.1, 4))
  }

  /** The bytes of the cache file for a build. They cannot be had only of files beyond what its fields can count, or if
  some name, that of `misnamed`, has not the width of a name. */
  method PrintEntries(c: BuildContext, sources: seq<SourceFile>, sequence: nat)
    returns (r: Result<Bytes>, ghost misnamed: Bytes)
    requires ToolSound(c.tool) && Packed(c, sources) && |c.projectId| == 16 && sequence < U64_LIMIT
    ensures r.Ok? ==> SavedFor(c.tool, c.options, c.projectId, sequence, sources, r.value)
    ensures r.Err? ==>
              || (exists i :: 0 <= i < |sources| && !StampFits(sources[i].stamp))
              || |sources| >= U32_LIMIT || |c.pending| >= U32_LIMIT || |c.tool.hash(misnamed)| != 32
  {
    hide ToolSound, BuildContext.Holding, AssetsOk, LinesOf, EntriesDescribe, BuildCacheFile.FileBytes,
         BuildCacheFile.FileFits, BuildCacheFile.Payload, Fits, StampFits, BuildCacheFile.EntryTyped, AllChunks;
    misnamed := [];
    var entries := CollectEntries(c, sources);
    if !EntriesTyped(entries) {
      var i :| 0 <= i < |entries| && !BuildCacheFile.EntryTyped(entries[i].1);
      misnamed := Untyped(c, sources, entries, i);
      return Err(InvalidInput), misnamed;
    }
    SequenceFits(sequence);
    r := BuildCacheFile.SaveFile(c.projectId, sequence, entries, c.tool.hash);
    if r.Ok? {
      assert SavedAs(c.tool, c.options, c.projectId, sequence, sources, r.value, entries);
    } else if |sources| < U32_LIMIT && |c.pending| < U32_LIMIT {
      EntriesFitFile(c, sources, entries, sequence);
      misnamed := BuildCacheFile.Payload(BuildCacheFile.File(c.projectId, sequence, BuildCacheFile.RawsOf(entries)));
    }
  }

  /** An entry that does not fit its fields has a chunk with too short or too long a name. */
  lemma Untyped(c: BuildContext, sources: seq<SourceFile>, entries: seq<(Bytes, CachedEntry)>, i: nat)
    returns (misnamed: Bytes)
    requires ToolSound(c.tool) && Packed(c, sources) && EntriesDescribe(c.tool, c.options, sources, entries)
    requires i < |entries| && !BuildCacheFile.EntryTyped(entries[i].1)
    ensures i < |sources| && (!StampFits(sources[i].stamp) || |c.tool.hash(misnamed)| != 32)
  {
    hide BuildContext.Holding, AssetsOk, LinesOf, ChunksOf, OffsetOf, AllChunks, ToolSound, Packed;
    misnamed := [];
    var source, e := sources[i], entries[i].1;
    assert EntryDescribes(c.tool, c.options, source, entries[i]);
    AssetOfFile(c, sources, i);
    StyleFits(c.tool, source);
    if StampFits(source.stamp) {
      WordSizes();
      var j :| 0 <= j < |e.chunks| && !BuildCacheFile.ChunkFits(e.chunks[j]);
      misnamed := MisnamedChunk(c.tool, source.body, e, j);
    }
  }

  lemma StyleFits(t: Tool, source: SourceFile)
    requires ToolSound(t)
    ensures ClassOk(Classify(t, source)) && Fits(Classify(t, source).fixedBlockLen, 4)
  {
    WordSizes();
  }

  lemma MisnamedChunk(t: Tool, body: Bytes, e: CachedEntry, j: nat) returns (misnamed: Bytes)
    requires ToolSound(t) && CachedTrue(t, body, e) && |body| < U64_LIMIT
    requires j < |e.chunks| && !BuildCacheFile.ChunkFits(e.chunks[j])
    ensures |t.hash(misnamed)| != 32
  {
    WordSizes();
    ChunkingTiles(t, StyleOf(e), body);
    var chunks := Chunks(t, StyleOf(e), body);
    ChunkPlace(chunks, j);
    misnamed := chunks[j];
  }

  lemma AssetOfFile(c: BuildContext, sources: seq<SourceFile>, i: nat)
    requires ToolSound(c.tool) && Packed(c, sources) && i < |sources|
    ensures |sources[i].path| < U16_LIMIT && |ContentOf(sources[i])| == sources[i].len < U64_LIMIT
    ensures |ChunksOf(c.tool, sources[i])| <= |c.pending|
  {
    hide ToolSound, BuildContext.Holding, ChunksOf, OffsetOf, AllChunks;
    assert AssetAt(c.tool, c.options, c.fileRecords, c.filePaths, c.pathPool, sources[i],
                   LinesOf(c.pending, c.plains, c.Here()), i);
  }

  lemma ChunkCount(c: BuildContext, sources: seq<SourceFile>, entries: seq<(Bytes, CachedEntry)>, i: nat)
    requires ToolSound(c.tool) && Packed(c, sources) && EntriesDescribe(c.tool, c.options, sources, entries)
    requires i < |sources|
    ensures |entries[i].1.chunks| <= |c.pending|
  {
    hide ToolSound, BuildContext.Holding, AssetsOk, LinesOf, OffsetOf, AllChunks;
    AssetOfFile(c, sources, i);
    assert EntryDescribes(c.tool, c.options, sources[i], entries[i]);
    assert StyleOf(entries[i].1) == Classify(c.tool, sources[i]);
  }

  /** Entries within their fields make a file that can be printed. */
  lemma EntriesFitFile(c: BuildContext, sources: seq<SourceFile>, entries: seq<(Bytes, CachedEntry)>, sequence: nat)
    requires ToolSound(c.tool) && Packed(c, sources) && EntriesDescribe(c.tool, c.options, sources, entries)
    requires EntriesTyped(entries) && |sources| < U32_LIMIT && |c.pending| < U32_LIMIT
    requires |c.projectId| == 16 && Fits(sequence, 8)
    ensures BuildCacheFile.FileFits(BuildCacheFile.File(c.projectId, sequence, BuildCacheFile.RawsOf(entries)))
  {
    hide ToolSound, BuildContext.Holding, AssetsOk, LinesOf, ChunksOf, OffsetOf, AllChunks, CachedTrue, EntryMatches;
    WordSizes();
    var raws := BuildCacheFile.RawsOf(entries);
    forall i | 0 <= i < |raws|
      ensures BuildCacheFile.EntryFits(raws[i])
    {
      assert EntryDescribes(c.tool, c.options, sources[i], entries[i]);
      ChunkCount(c, sources, entries, i);
      AssetOfFile(c, sources, i);
    }
  }

  lemma SequenceFits(sequence: nat)
    requires sequence < U64_LIMIT
    ensures Fits(sequence, 8)
  {
    WordSizes();
  }

  /** A saved file loads as true entries, and only for its own release. */
  lemma SavedIsTrue(t: Tool, honest: (Bytes, Stamp) -> Bytes, options: Options, projectId: Bytes, sequence: nat,
                    sources: seq<SourceFile>, bytes: Bytes, canonical: Bytes -> bool)
    requires ToolSound(t) && SavedFor(t, options, projectId, sequence, sources, bytes) && !canonical([])
    requires SourcesListed(options, sources, honest, canonical) && options.developmentCache
    ensures FileTrue(t, honest, projectId, canonical, bytes)
  {
    hide ToolSound, BuildCacheFile.FileBytes, BuildCacheFile.FileFits, BuildCacheFile.Payload, BuildCacheFile.Loaded,
         BuildCacheFile.MapOf, BuildCacheFile.Reloadable, BuildCacheFile.MapHas, CacheTrue, EntriesDescribe,
         SourcesListed;
    var entries :| SavedAs(t, options, projectId, sequence, sources, bytes, entries);
    forall other: nat
      ensures LoadsTrue(t, honest, projectId, canonical, bytes, other)
    {
      BuildCacheFile.SavedIsLoaded(projectId, sequence, entries, t.hash, canonical, projectId, other);
      var loaded := BuildCacheFile.Loaded(bytes, projectId, other, t.hash, canonical);
      if loaded.Some? {
        MapIsTrue(t, honest, options, sources, canonical, entries, BuildCacheFile.MapOf(loaded.value));
      }
    }
  }

  lemma MapIsTrue(t: Tool, honest: (Bytes, Stamp) -> Bytes, options: Options, sources: seq<SourceFile>,
                  canonical: Bytes -> bool, entries: seq<(Bytes, CachedEntry)>, loaded: CacheEntries)
    requires ToolSound(t) && EntriesDescribe(t, options, sources, entries) && BuildCacheFile.MapHas(loaded, entries)
    requires SourcesListed(options, sources, honest, canonical) && options.developmentCache
    ensures CacheTrue(t, honest, loaded)
  {
    hide ToolSound, CachedTrue;
    forall path | path in loaded && loaded[path].stamp.len > 0
      ensures CachedTrue(t, honest(path, loaded[path].stamp), loaded[path])
    {
      var i :| 0 <= i < |entries| && entries[i].0 == path;
      assert EntryDescribes(t, options, sources[i], entries[i]);
    }
  }
}
