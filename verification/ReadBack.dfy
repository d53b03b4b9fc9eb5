/** What the packer publishes is what the reader needs: its releases are sound and their assets tile. */
module ReadBack {
  import opened Basics
  import opened Records
  import opened Wire
  import opened Tables
  import opened Catalogs
  import opened CatalogRoundTrip
  import PathIndex
  import opened Pages
  import opened BlockStore
  import opened AssetReader
  import opened Sources
  import opened SegmentStore
  import opened Placement
  import opened Builds
  import opened Packing
  import opened Releases
  import opened Assets
  import Storage

  /** The plaintext of a physical block. */
  ghost function TruthAt(s: Snapshot, library: map<Bytes, Manifest>, k: BlockKey): Bytes {
    if k.segment < |s.segments| && s.segments[k.segment].id in library
       && k.block < |library[s.segments[k.segment].id]|
    then
      library[s.segments[k.segment].id][k.block].plain
    else []
  }

  ghost function TruthOf(s: Snapshot, library: map<Bytes, Manifest>): map<BlockKey, Bytes> {
    map k | k in (set b | b in s.blocks :: KeyOf(b)) :: TruthAt(s, library, k)
  }

  /** The release that an opened snapshot gives the reader: segment files as they lie in the data directory,
  pages as they were written. */
  function ReleaseOf(t: Tool, projectId: Bytes, data: map<Bytes, Bytes>, ghost library: map<Bytes, Manifest>,
                     s: Snapshot, c: PageCrypto, e: EncryptedPages): Release {
    Release(s.segments, t.crypto, data, TruthOf(s, library), s.blocks, projectId, c, e.directory, Join(e.ciphertexts),
            e.mapCount)
  }

  /** No other bytes of the same length have the digest of a written page. */
  ghost predicate PagesUnforged(c: PageCrypto, e: EncryptedPages) {
    forall i, b: Bytes ::
      0 <= i < |e.ciphertexts| && |b| == |e.ciphertexts[i]| && c.digest(b) == c.digest(e.ciphertexts[i]) ==>
        b == e.ciphertexts[i]
  }

  lemma TruthOfBlock(t: Tool, s: Snapshot, library: map<Bytes, Manifest>, n: nat)
    requires n < |s.blocks| == |s.chunkIds| && BlockAt(t, s, library, n)
    ensures KeyOf(s.blocks[n]) in TruthOf(s, library)
    ensures TruthOf(s, library)[KeyOf(s.blocks[n])]
                == PlainAt(s.blocks[n], library[s.segments[s.blocks[n].segmentOrdinal].id])
  {
    assert s.blocks[n] in s.blocks;
  }

  /** The signed digest of a block admits only what the packer wrote. */
  lemma BlockIsAuthentic(t: Tool, projectId: Bytes, data: map<Bytes, Bytes>, library: map<Bytes, Manifest>, s: Snapshot,
                         c: PageCrypto, e: EncryptedPages, n: nat)
    requires ToolSound(t) && LibraryOk(t, projectId, data, s.segments, library)
    requires n < |s.blocks| == |s.chunkIds| && BlockAt(t, s, library, n)
    ensures ReleaseOf(t, projectId, data, library, s, c, e).Authentic(s.blocks[n])
  {
    hide Stored, SegmentFile, StoredTotal, Located, PlainAt, TruthOf;
    var b := s.blocks[n];
    var x := s.segments[b.segmentOrdinal];
    TruthOfBlock(t, s, library, n);
    StoredNamed(t, projectId, data, x, library[x.id]);
    ReferenceReads(t, projectId, data, x, library[x.id], b);
    var written := data[x.id][b.physicalOffset..b.physicalOffset + b.storedLen];
    forall bytes: Bytes | |bytes| == b.storedLen && t.crypto.digest(bytes) == b.cipherDigest
      ensures bytes == written
    {
      SameDigest(t, bytes, written);
    }
  }

  lemma SameDigest(t: Tool, a: Bytes, b: Bytes)
    requires ToolSound(t) && t.crypto.digest(a) == t.crypto.digest(b)
    ensures a == b
  {
  }

  /** The block is where the reader looks for it, in a segment with the header it expects. */
  lemma BlockIsInstalled(t: Tool, projectId: Bytes, data: map<Bytes, Bytes>, library: map<Bytes, Manifest>, s: Snapshot,
                         c: PageCrypto, e: EncryptedPages, n: nat)
    requires ToolSound(t) && LibraryOk(t, projectId, data, s.segments, library)
    requires n < |s.blocks| == |s.chunkIds| && BlockAt(t, s, library, n)
    ensures ReleaseOf(t, projectId, data, library, s, c, e).Installed(s.blocks[n])
  {
    hide ToolSound, StoredTotal, PlainAt, TruthOf, Describes, ParseSegmentHeader, Holds, EncodeSegmentHeader;
    var b := s.blocks[n];
    var x := s.segments[b.segmentOrdinal];
    ReferenceCovers(t, projectId, data, x, library[x.id], b);
    HeaderLength(HeaderOf(projectId, x));
    SegmentHeaderRoundTrip(HeaderOf(projectId, x));
    assert data[x.id][..SEGMENT_HEADER_SIZE] == EncodeSegmentHeader(HeaderOf(projectId, x));
  }

  lemma PageIsAuthentic(r: Release, c: PageCrypto, e: EncryptedPages, blocks: seq<BlockRef>, ids: seq<Bytes>, i: nat)
    requires r.pageCrypto == c && r.directory == e.directory && r.region == Join(e.ciphertexts) && i < |e.directory|
    requires BlocksAccepted(blocks) && |blocks| == |ids| && Paginated(c, e, blocks, ids) && PagesUnforged(c, e)
    ensures r.PageAuthentic(i)
  {
    hide BlocksAccepted, PlainPages, Join, PageLengthsCanonical;
    var plains := PlainPages(blocks, ids, e.mapCount, e.reuseCount);
    assert SealedAt(c, e.directory, e.ciphertexts, plains, i);
    PageStartIsPrefix(c, e.directory, e.ciphertexts, plains, i);
    JoinPart(e.ciphertexts, i);
  }

  /** A published release is sound for the reader. */
  lemma PublishedIsSound(t: Tool, projectId: Bytes, data: map<Bytes, Bytes>, library: map<Bytes, Manifest>, s: Snapshot,
                         c: PageCrypto, e: EncryptedPages)
    requires ToolSound(t) && SnapshotOk(t, projectId, data, library, s) && |s.blocks| <= MAX_BLOCKS
    requires BlocksAccepted(s.blocks) && Paginated(c, e, s.blocks, s.chunkIds) && PagesUnforged(c, e)
    ensures ReleaseOf(t, projectId, data, library, s, c, e).Sound()
  {
    hide ToolSound, LibraryOk, BlockAt, SegmentNeeded, ById, BlocksAccepted, Paginated, PagesUnforged,
         Release.Authentic, Release.Installed, Release.PageAuthentic, FindBlock, TruthOf, Join, Storage.FileTotal;
    var r := ReleaseOf(t, projectId, data, library, s, c, e);
    forall n | 0 <= n < |r.blocks|
      ensures r.Authentic(r.blocks[n]) && r.Installed(r.blocks[n])
      ensures FindBlock(c, r.directory, r.region, |r.blocks|, r.mapCount, n) == Some(r.blocks[n])
    {
      BlockIsAuthentic(t, projectId, data, library, s, c, e, n);
      BlockIsInstalled(t, projectId, data, library, s, c, e, n);
      FindsEveryBlock(c, e, s.blocks, s.chunkIds, n);
    }
    forall i | 0 <= i < |r.directory|
      ensures r.PageAuthentic(i)
    {
      PageIsAuthentic(r, c, e, s.blocks, s.chunkIds, i);
    }
  }

  // ------------------------------------------------------------------------ tiling

  lemma AssetBlock(t: Tool, options: Options, s: Snapshot, library: map<Bytes, Manifest>, source: SourceFile, i: nat,
                   j: nat)
    requires ToolSound(t) && |s.files| == |s.paths| && i < |s.files| && |s.blocks| == |s.chunkIds|
    requires AssetAt(t, options, s.files, s.paths, s.pathPool, source, SnapshotLines(s, library), i)
    requires j < |ChunksOf(t, source)|
    requires forall n :: 0 <= n < |s.blocks| ==> BlockAt(t, s, library, n)
    ensures s.files[i].firstBlock + j < |s.blocks| && s.files[i].blockCount == |ChunksOf(t, source)|
    ensures var b, chunk := s.blocks[s.files[i].firstBlock + j], ChunksOf(t, source)[j];
            && KeyOf(b) in TruthOf(s, library) && TruthOf(s, library)[KeyOf(b)] == chunk && b.plainLen == |chunk|
            && b.logicalOffset == OffsetOf(ChunksOf(t, source), j)
            && b.segmentOrdinal < |s.segments|
            && s.segments[b.segmentOrdinal].availability == options.AvailabilityOf(source.path)
  {
    hide ToolSound, ChunksOf, OffsetOf, TruthOf;
    var n := s.files[i].firstBlock + j;
    var lines := SnapshotLines(s, library);
    assert lines[n] == Line(OffsetOf(ChunksOf(t, source), j), options.AvailabilityOf(source.path),
                            ChunksOf(t, source)[j]);
    assert lines[n] == LineAt(s, library, n);
    assert BlockAt(t, s, library, n);
    TruthOfBlock(t, s, library, n);
  }

  ghost predicate BlocksTile(file: FileRecord, r: Release, chunks: seq<Bytes>) {
    && file.blockCount == |chunks| && file.firstBlock + file.blockCount <= |r.blocks|
    && (forall j :: 0 <= j < |chunks| ==> ChunkBlock(BlockOf(file, r, j), r, chunks, j))
  }

  ghost predicate ChunkBlock(b: BlockRef, r: Release, chunks: seq<Bytes>, j: nat)
    requires j < |chunks|
  {
    KeyOf(b) in r.truth && r.truth[KeyOf(b)] == chunks[j] && b.plainLen == |chunks[j]|
    && b.logicalOffset == OffsetOf(chunks, j)
  }

  /** Blocks that follow the chunks of a file tile its content. */
  lemma ChunksMakeTiles(file: FileRecord, r: Release, kind: SourceClass, chunks: seq<Bytes>, content: Bytes)
    requires BlocksTile(file, r, chunks) && ChunksTile(kind, chunks, content) && ClassOk(kind)
    requires file.logicalLen == |content| < U64_LIMIT && file.layout == kind.layout
    requires file.fixedBlockLen == kind.fixedBlockLen
    requires |r.blocks| < U32_LIMIT
    ensures Tiles(file, r, content)
  {
    hide OffsetOf, Join;
    OffsetZero(chunks);
    forall j | 0 <= j < |chunks|
      ensures HoldsItsPart(BlockOf(file, r, j), r, content) && Abuts(file, r, content, j)
      ensures file.layout == Fixed ==> AtMultiple(file, r, j)
    {
      assert ChunkBlock(BlockOf(file, r, j), r, chunks, j);
      ChunkPlace(chunks, j);
      if j + 1 < |chunks| {
        assert ChunkBlock(BlockOf(file, r, j + 1), r, chunks, j + 1);
      }
      if file.layout == Fixed {
        FixedOffset(chunks, kind.fixedBlockLen, j);
      }
    }
    if |chunks| > 0 {
      assert ChunkBlock(BlockOf(file, r, 0), r, chunks, 0);
      ChunkPlace(chunks, 0);
    } else {
      NoChunks(chunks);
    }
  }

  lemma NoChunks(chunks: seq<Bytes>)
    requires chunks == []
    ensures Join(chunks) == []
  {
  }

  /** Every asset of a release that contains the sources tiles the source's content, so that reading it
  through any history of operations is slicing that content. */
  lemma PublishedTiles(t: Tool, options: Options, projectId: Bytes, data: map<Bytes, Bytes>,
                       library: map<Bytes, Manifest>, s: Snapshot, sources: seq<SourceFile>, c: PageCrypto,
                       e: EncryptedPages, i: nat)
    requires ToolSound(t) && SnapshotOk(t, projectId, data, library, s) && i < |sources|
    requires AssetsOk(t, options, s.files, s.paths, s.pathPool, sources, SnapshotLines(s, library))
    ensures |s.files| == |s.paths| == |sources| && s.paths[i] == sources[i].path
    ensures Tiles(s.files[i], ReleaseOf(t, projectId, data, library, s, c, e), ContentOf(sources[i]))
  {
    var source, r := sources[i], ReleaseOf(t, projectId, data, library, s, c, e);
    var kind := Classify(t, source);
    assert ClassOk(kind);
    hide ToolSound, ChunksOf, OffsetOf, TruthOf, LibraryOk, BlockAt, SegmentNeeded, ById, Tiles, Join, ChunksTile,
         Storage.FileTotal, ClassOk, SnapshotLines, AssetAt;
    assert AssetAt(t, options, s.files, s.paths, s.pathPool, source, SnapshotLines(s, library), i);
    AssetRecord(t, options, s, library, source, i);
    AssetBlocksTile(t, options, s, library, source, r, i);
    ChunksOfTile(t, source);
    ChunksMakeTiles(s.files[i], r, kind, ChunksOf(t, source), ContentOf(source));
  }

  /** The asset is the bytes that the file has now exactly when the file was listed with a positive length or is
  still empty: a file listed as empty is never opened. */
  lemma AssetIsFileExactlyWhen(t: Tool, options: Options, projectId: Bytes, data: map<Bytes, Bytes>,
                               library: map<Bytes, Manifest>, s: Snapshot, sources: seq<SourceFile>, c: PageCrypto,
                               e: EncryptedPages, i: nat)
    requires ToolSound(t) && SnapshotOk(t, projectId, data, library, s) && i < |sources|
    requires AssetsOk(t, options, s.files, s.paths, s.pathPool, sources, SnapshotLines(s, library))
    ensures |s.files| == |sources|
    ensures Tiles(s.files[i], ReleaseOf(t, projectId, data, library, s, c, e), sources[i].body)
            <==> sources[i].len > 0 || sources[i].body == []
  {
    hide ToolSound, ChunksOf, OffsetOf, TruthOf, LibraryOk, BlockAt, SegmentNeeded, ById, SnapshotLines, AssetAt,
         Storage.FileTotal;
    PublishedTiles(t, options, projectId, data, library, s, sources, c, e, i);
    assert AssetAt(t, options, s.files, s.paths, s.pathPool, sources[i], SnapshotLines(s, library), i);
    AssetRecord(t, options, s, library, sources[i], i);
    ListedLength(t, options, s, library, sources[i], i);
  }

  lemma ListedLength(t: Tool, options: Options, s: Snapshot, library: map<Bytes, Manifest>, source: SourceFile, i: nat)
    requires ToolSound(t) && |s.files| == |s.paths| && i < |s.files|
    requires AssetAt(t, options, s.files, s.paths, s.pathPool, source, SnapshotLines(s, library), i)
    ensures |ContentOf(source)| == source.len == s.files[i].logicalLen
    ensures s.files[i].access == Classify(t, source).access
  {
    hide ToolSound, ChunksOf, OffsetOf, Classify;
  }

  lemma AssetRecord(t: Tool, options: Options, s: Snapshot, library: map<Bytes, Manifest>, source: SourceFile, i: nat)
    requires ToolSound(t) && |s.files| == |s.paths| && i < |s.files|
    requires AssetAt(t, options, s.files, s.paths, s.pathPool, source, SnapshotLines(s, library), i)
    ensures var f, kind := s.files[i], Classify(t, source);
            && f.logicalLen == |ContentOf(source)| < U64_LIMIT && f.layout == kind.layout
            && f.fixedBlockLen == kind.fixedBlockLen
            && f.blockCount == |ChunksOf(t, source)| && f.firstBlock + f.blockCount <= |s.blocks|
            && s.paths[i] == source.path
            && f.pathLen == |source.path| && f.pathOffset + f.pathLen <= |s.pathPool|
            && s.pathPool[f.pathOffset..f.pathOffset + f.pathLen] == source.path
  {
    hide ToolSound, ChunksOf, OffsetOf;
  }

  lemma AssetBlocksTile(t: Tool, options: Options, s: Snapshot, library: map<Bytes, Manifest>, source: SourceFile,
                        r: Release, i: nat)
    requires ToolSound(t) && |s.files| == |s.paths| && i < |s.files| && |s.blocks| == |s.chunkIds|
    requires AssetAt(t, options, s.files, s.paths, s.pathPool, source, SnapshotLines(s, library), i)
    requires forall n :: 0 <= n < |s.blocks| ==> BlockAt(t, s, library, n)
    requires r.blocks == s.blocks && r.truth == TruthOf(s, library)
    ensures BlocksTile(s.files[i], r, ChunksOf(t, source))
  {
    hide ToolSound, ChunksOf, OffsetOf, TruthOf, BlockAt, SnapshotLines, AssetAt;
    AssetRecord(t, options, s, library, source, i);
    forall j | 0 <= j < |ChunksOf(t, source)|
      ensures ChunkBlock(BlockOf(s.files[i], r, j), r, ChunksOf(t, source), j)
    {
      AssetBlock(t, options, s, library, source, i, j);
    }
  }

  /** Every block of an asset lies in a segment of the availability that the options of the build give its path:
  deferred exactly when a listed prefix is the path or one of its directories. */
  lemma AvailabilityIsolated(t: Tool, options: Options, projectId: Bytes, data: map<Bytes, Bytes>,
                             library: map<Bytes, Manifest>, s: Snapshot, sources: seq<SourceFile>, i: nat, n: nat)
    requires ToolSound(t) && SnapshotOk(t, projectId, data, library, s) && i < |sources|
    requires AssetsOk(t, options, s.files, s.paths, s.pathPool, sources, SnapshotLines(s, library))
    requires s.files[i].firstBlock <= n < s.files[i].firstBlock + s.files[i].blockCount
    ensures n < |s.blocks| && s.blocks[n].segmentOrdinal < |s.segments|
    ensures s.segments[s.blocks[n].segmentOrdinal].availability == options.AvailabilityOf(sources[i].path)
    ensures var path := sources[i].path;
            s.segments[s.blocks[n].segmentOrdinal].availability == Deferred
            <==> exists p :: p in options.deferred && (path == p || exists rest: Bytes :: path == p + [47] + rest)
  {
    hide ToolSound, ChunksOf, OffsetOf, TruthOf, LibraryOk, BlockAt, SegmentNeeded, ById, SnapshotLines, AssetAt,
         Storage.FileTotal;
    assert AssetAt(t, options, s.files, s.paths, s.pathPool, sources[i], SnapshotLines(s, library), i);
    AssetRecord(t, options, s, library, sources[i], i);
    AssetBlock(t, options, s, library, sources[i], i, n - s.files[i].firstBlock);
    hide *;
    DeferredExactlyWhen(options, sources[i].path);
  }

  // ------------------------------------------------------------------ what pages accept

  lemma {:induction false} BlockInAsset(t: Tool, options: Options, s: Snapshot, library: map<Bytes, Manifest>,
                                        sources: seq<SourceFile>, k: nat, n: nat)
    returns (i: nat)
    requires ToolSound(t) && AssetsOk(t, options, s.files, s.paths, s.pathPool, sources, SnapshotLines(s, library))
    requires k <= |s.files| && n < BlockStart(s.files, k)
    ensures i < |s.files| == |s.paths| == |sources|
    ensures s.files[i].firstBlock <= n < s.files[i].firstBlock + s.files[i].blockCount
  {
    hide ToolSound, SnapshotLines, ChunksOf, OffsetOf, RecordOf;
    assert AssetAt(t, options, s.files, s.paths, s.pathPool, sources[k - 1], SnapshotLines(s, library), k - 1);
    if n >= s.files[k - 1].firstBlock {
      i := k - 1;
    } else {
      i := BlockInAsset(t, options, s, library, sources, k - 1, n);
    }
  }

  lemma StoredFits(t: Tool, projectId: Bytes, data: map<Bytes, Bytes>, x: SegmentRecord, m: Manifest, b: BlockRef)
    requires Stored(t, projectId, data, x, m) && Located(b, m)
    ensures b.segmentBlockOrdinal < U32_LIMIT && b.physicalOffset < U64_LIMIT && b.storedLen < U32_LIMIT
    ensures b.plainLen < U32_LIMIT
    ensures BlockLengthsCanonical(b)
  {
    hide SealedBlock, StoredTotal, SegmentFile;
    WordSizes();
    assert EntryAt(t, x.uid, data[x.id][SEGMENT_HEADER_SIZE..], m, b.segmentBlockOrdinal);
  }

  /** The packer's references fit the page format, given digests of the length the format has room for. */
  lemma PublishedBlocksAccepted(t: Tool, options: Options, projectId: Bytes, data: map<Bytes, Bytes>,
                                library: map<Bytes, Manifest>, s: Snapshot, sources: seq<SourceFile>)
    requires ToolSound(t) && SnapshotOk(t, projectId, data, library, s)
    requires AssetsOk(t, options, s.files, s.paths, s.pathPool, sources, SnapshotLines(s, library))
    requires forall n :: 0 <= n < |s.blocks| ==> |s.blocks[n].cipherDigest| == 16
    ensures BlocksAccepted(s.blocks)
  {
    hide ToolSound, SnapshotLines, ChunksOf, OffsetOf, RecordOf, Stored, AssetAt, Located, PlainAt, SegmentNeeded, ById,
         Storage.FileTotal, TruthOf, BlockLengthsCanonical;
    WordSizes();
    forall n | 0 <= n < |s.blocks|
      ensures BlockFits(s.blocks[n]) && BlockLengthsCanonical(s.blocks[n])
    {
      assert BlockAt(t, s, library, n);
      var x := s.segments[s.blocks[n].segmentOrdinal];
      StoredFits(t, projectId, data, x, library[x.id], s.blocks[n]);
      var i := BlockInAsset(t, options, s, library, sources, |s.files|, n);
      OffsetFits(t, options, s, library, sources[i], i, n);
    }
  }

  lemma OffsetFits(t: Tool, options: Options, s: Snapshot, library: map<Bytes, Manifest>, source: SourceFile, i: nat,
                   n: nat)
    requires ToolSound(t) && |s.files| == |s.paths| && i < |s.files| && |s.blocks| == |s.chunkIds|
    requires AssetAt(t, options, s.files, s.paths, s.pathPool, source, SnapshotLines(s, library), i)
    requires forall m :: 0 <= m < |s.blocks| ==> BlockAt(t, s, library, m)
    requires s.files[i].firstBlock <= n < s.files[i].firstBlock + s.files[i].blockCount
    ensures n < |s.blocks| && s.blocks[n].logicalOffset < U64_LIMIT
  {
    hide ToolSound, SnapshotLines, ChunksOf, OffsetOf, AssetAt, BlockAt, TruthOf, Join;
    AssetRecord(t, options, s, library, source, i);
    AssetBlock(t, options, s, library, source, i, n - s.files[i].firstBlock);
    ChunksOfTile(t, source);
    ChunkPlace(ChunksOf(t, source), n - s.files[i].firstBlock);
  }

  // ------------------------------------------------------------------ the catalog

  /** The catalog of a snapshot. */
  function CatalogOf(s: Snapshot, slots: seq<PathSlot>, e: EncryptedPages): CatalogData {
    CatalogData(s.segments, s.files, slots, s.pathPool, e.directory, |s.blocks|, e.mapCount, e.reuseCount)
  }

  /** What the packer puts into a catalog meets every cross-record condition of the parser, and its path pool
  holds the paths, so that parsing the printed catalog gives it back and lookup by path is exact. */
  lemma PublishedCatalogAccepted(t: Tool, options: Options, projectId: Bytes, data: map<Bytes, Bytes>,
                                 library: map<Bytes, Manifest>, s: Snapshot, sources: seq<SourceFile>, c: PageCrypto,
                                 e: EncryptedPages, slots: seq<PathSlot>, canonical: Bytes -> bool)
    requires ToolSound(t) && SnapshotOk(t, projectId, data, library, s) && |s.blocks| <= MAX_BLOCKS
    requires |s.pathPool| <= MAX_PATH_POOL_LEN
    requires AssetsOk(t, options, s.files, s.paths, s.pathPool, sources, SnapshotLines(s, library))
    requires BlocksAccepted(s.blocks) && Paginated(c, e, s.blocks, s.chunkIds) && Uniform(s.chunkIds, REUSE_RECORD_SIZE)
    requires PathIndex.SlotsFit(slots, |s.files|) && !canonical([])
    requires forall i :: 0 <= i < |sources| ==> canonical(sources[i].path)
    ensures DataValid(CatalogOf(s, slots, e), canonical) && PathIndex.PoolHolds(CatalogOf(s, slots, e), s.paths)
  {
    hide ToolSound, SnapshotLines, LibraryOk, BlockAt, SegmentNeeded, ById, Storage.FileTotal, BlocksAccepted,
         Paginated, Uniform, AssetAt, DataFileValid, PageOk, PageLengthsCanonical, PageCountsOk;
    var d := CatalogOf(s, slots, e);
    DirectoryAccepted(c, e, s.blocks, s.chunkIds);
    forall i | 0 <= i < |d.segments|
      ensures SegmentOk(d.segments[i])
    {
      SegmentAccepted(t, projectId, data, library, s, i);
    }
    forall i | 0 <= i < |d.files|
      ensures DataFileValid(d, d.files[i], canonical)
      ensures d.files[i].pathOffset + d.files[i].pathLen <= |d.pathPool|
      ensures PoolSlice(d.pathPool, d.files[i]) == s.paths[i]
    {
      FileAccepted(t, options, s, library, sources[i], d, canonical, i);
    }
  }

  lemma SegmentAccepted(t: Tool, projectId: Bytes, data: map<Bytes, Bytes>, library: map<Bytes, Manifest>, s: Snapshot,
                        i: nat)
    requires LibraryOk(t, projectId, data, s.segments, library) && i < |s.segments|
    ensures SegmentOk(s.segments[i])
  {
    hide Holds, SegmentFile, StoredTotal;
    assert Stored(t, projectId, data, s.segments[i], library[s.segments[i].id]);
  }

  lemma FileAccepted(t: Tool, options: Options, s: Snapshot, library: map<Bytes, Manifest>, source: SourceFile,
                     d: CatalogData, canonical: Bytes -> bool, i: nat)
    requires ToolSound(t) && |s.files| == |s.paths| && i < |s.files| && |s.blocks| <= MAX_BLOCKS
    requires |s.pathPool| <= MAX_PATH_POOL_LEN
    requires AssetAt(t, options, s.files, s.paths, s.pathPool, source, SnapshotLines(s, library), i)
    requires d.files == s.files && d.pathPool == s.pathPool && d.totalBlocks == |s.blocks| && canonical(source.path)
    requires !canonical([])
    ensures DataFileValid(d, d.files[i], canonical)
    ensures d.files[i].pathOffset + d.files[i].pathLen <= |d.pathPool|
    ensures PoolSlice(d.pathPool, d.files[i]) == s.paths[i]
  {
    hide ToolSound, SnapshotLines, ChunksOf, OffsetOf, AssetAt, Classify, Join;
    AssetRecord(t, options, s, library, source, i);
    ClassifiedOk(t, source);
    assert canonical(PoolSlice(d.pathPool, d.files[i]));
  }

  lemma ClassifiedOk(t: Tool, source: SourceFile)
    requires ToolSound(t)
    ensures ClassOk(Classify(t, source))
  {
  }
}
