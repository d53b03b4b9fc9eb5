/** Printing a snapshot: its path index, its pages and its catalog. */
module Printing {
  import opened Basics
  import opened Wire
  import opened Records
  import opened Tables
  import opened Catalogs
  import opened CatalogRoundTrip
  import opened Pages
  import opened Sources
  import opened SegmentStore
  import opened Placement
  import opened Builds
  import opened Packing
  import opened Releases
  import opened Assets
  import opened ReadBack
  import PathIndex
  import Storage

  const DIGEST_SIZE: nat := 32
  const BLOCK_DIGEST_SIZE: nat := 16

  /** What a snapshot file consists of besides its header. */
  datatype Printed = Printed(slots: seq<PathSlot>, pages: EncryptedPages, catalog: Bytes)

  /** The primitives that printing depends on: page sealing, the keyed path hash and the rule for paths. */
  datatype Press = Press(pages: PageCrypto, pathHash: PathIndex.PathHash, canonical: Bytes -> bool)

  ghost predicate PressSound(p: Press) {
    Lawful(p.pages) && DigestsDistinct(p.pages) && !p.canonical([])
  }

  /** Primitives that meet this, with page digests of the right width for the listed pages. */
  function PressWith(digested: seq<Bytes>): Press {
    Press(PageCrypto((level: int, x: Bytes) => x, (x: Bytes) => Some(x),
                     (a: PageAad, x: Bytes) => x + Zeros(TAG_SIZE),
                     (a: PageAad, x: Bytes) => if |x| >= TAG_SIZE then Some(x[..|x| - TAG_SIZE]) else None,
                     (x: Bytes) => NameFor(digested, PAGE_DIGEST_SIZE, x)),
          (path: Bytes) => 0, (path: Bytes) => path != [])
  }

  lemma PressSoundPossible(digested: seq<Bytes>)
    requires 0 < |digested| <= 256
    ensures PressSound(PressWith(digested))
    ensures forall x :: x in digested ==> |PressWith(digested).pages.digest(x)| == PAGE_DIGEST_SIZE
  {
    var p := PressWith(digested);
    forall a: Bytes, b: Bytes | p.pages.digest(a) == p.pages.digest(b)
      ensures a == b
    {
      NamesDiffer(digested, PAGE_DIGEST_SIZE, a, b);
    }
  }

  /** Names and digests have the widths of their fields, which the program's types guarantee. */
  predicate NamesFit(s: Snapshot) {
    && (forall i :: 0 <= i < |s.segments| ==> |s.segments[i].id| == DIGEST_SIZE)
    && (forall n :: 0 <= n < |s.chunkIds| ==> |s.chunkIds[n]| == DIGEST_SIZE)
    && (forall n :: 0 <= n < |s.blocks| ==> |s.blocks[n].cipherDigest| == BLOCK_DIGEST_SIZE)
  }

  /** Everything that opening and reading the snapshot relies on. */
  ghost predicate PrintedOk(p: Press, s: Snapshot, e: Printed) {
    && BlocksAccepted(s.blocks) && |s.chunkIds| == |s.blocks| <= MAX_BLOCKS && Uniform(s.chunkIds, REUSE_RECORD_SIZE)
    && Paginated(p.pages, e.pages, s.blocks, s.chunkIds)
    && Indexed(p, s, e.slots)
    && var d := CatalogOf(s, e.slots, e.pages);
       && Printable(d) && Addressable(d, USIZE_MAX) && Catalogs.Encoded(d) == Some(e.catalog)
       && DataValid(d, p.canonical) && PathIndex.PoolHolds(d, s.paths)
  }

  /** The path index finds exactly the listed paths. */
  ghost predicate Indexed(p: Press, s: Snapshot, slots: seq<PathSlot>) {
    && |s.paths| == |s.files| <= MAX_FILES && |s.paths| < |slots| && PathIndex.SlotsFit(slots, |s.files|)
    && exists probes :: PathIndex.Placed(slots, s.paths, p.pathHash, |s.paths|, probes)
  }

  function SlotCount(files: nat): nat {
    PathIndex.NextPowerOfTwo(Max(2 * files, 1))
  }

  function PageCount(blocks: nat): nat {
    DivCeil(blocks, BLOCKS_PER_MAP_PAGE) + DivCeil(blocks, REUSE_PER_PAGE)
  }

  /** The length of a catalog before compression, by what it lists. */
  function CatalogBytes(segments: nat, files: nat, pool: nat, blocks: nat): nat {
    CATALOG_HEADER_SIZE + segments * SEGMENT_RECORD_SIZE + files * FILE_RECORD_SIZE
    + SlotCount(files) * PATH_SLOT_SIZE + pool + PageCount(blocks) * PAGE_RECORD_SIZE
  }

  function CatalogLen(s: Snapshot): nat {
    CatalogBytes(|s.segments|, |s.files|, |s.pathPool|, |s.blocks|)
  }

  /** Names and digests have their widths, those of the pages included. */
  ghost predicate WidthsFit(p: Press, level: int, s: Snapshot) {
    NamesFit(s) && (BlocksAccepted(s.blocks) ==> DigestsFit(p.pages, level, s.blocks, s.chunkIds))
  }

  /** The format has room for the snapshot. */
  ghost predicate FitsFormat(p: Press, level: int, s: Snapshot) {
    && WidthsFit(p, level, s) && |s.segments| <= MAX_SEGMENTS && |s.files| <= MAX_FILES && |s.blocks| <= MAX_BLOCKS
    && |s.pathPool| <= MAX_PATH_POOL_LEN && CatalogLen(s) <= MAX_CATALOG_PLAIN_LEN
  }

  ghost predicate Given(t: Tool, options: Options, projectId: Bytes, data: map<Bytes, Bytes>,
                        library: map<Bytes, Manifest>, s: Snapshot, sources: seq<SourceFile>, p: Press) {
    && ToolSound(t) && SnapshotOk(t, projectId, data, library, s) && PressSound(p)
    && AssetsOk(t, options, s.files, s.paths, s.pathPool, sources, SnapshotLines(s, library))
    && (forall i :: 0 <= i < |sources| ==> p.canonical(sources[i].path))
  }

  /** Prints a snapshot. It succeeds exactly when the format has room for it; then the catalog parses back, every path
  is found in it and every block reference on its page. */
  method PrintSnapshot(p: Press, s: Snapshot, options: Options, ghost t: Tool, ghost projectId: Bytes,
                       ghost data: map<Bytes, Bytes>, ghost library: map<Bytes, Manifest>,
                       ghost sources: seq<SourceFile>) returns (r: Result<Printed>)
    requires Given(t, options, projectId, data, library, s, sources, p)
    ensures r.Ok? <==> FitsFormat(p, options.level, s)
    ensures r.Ok? ==> PrintedOk(p, s, r.value)
  {
    hide ToolSound, SnapshotOk, AssetsOk, Lawful, DigestsDistinct, DigestsFit, Paginated, BlocksAccepted,
         PathIndex.SlotsFit, PathIndex.Placed, Typed, Catalogs.Encoded, Printable, DataValid, PathIndex.PoolHolds,
         PowerOfTwo, SnapshotLines, Uniform;
    if !NamesFit(s) || |s.files| > MAX_FILES || |s.blocks| > MAX_BLOCKS || |s.pathPool| > MAX_PATH_POOL_LEN {
      return Err(InvalidInput);
    }
    CountsAgree(t, options, projectId, data, library, s, sources);
    var slots := PathIndex.BuildPathSlots(s.paths, |s.files|, p.pathHash);
    NamesUniform(s);
    PublishedBlocksAccepted(t, options, projectId, data, library, s, sources);
    var pages := BuildPages(p.pages, options.level, s.blocks, s.chunkIds);
    if pages.Err? {
      return Err(pages.error);
    }
    CatalogTyped(t, options, projectId, data, library, s, sources, p, pages.value, slots.value);
    var d := CatalogOf(s, slots.value, pages.value);
    CatalogCounts(p, s, pages.value, slots.value);
    var catalog := Encode(d);
    if catalog.None? {
      return Err(InvalidInput);
    }
    PublishedCatalogAccepted(t, options, projectId, data, library, s, sources, p.pages, pages.value, slots.value,
                             p.canonical);
    EncodedPrintable(d);
    return Ok(Printed(slots.value, pages.value, catalog.value));
  }

  lemma CountsAgree(t: Tool, options: Options, projectId: Bytes, data: map<Bytes, Bytes>, library: map<Bytes, Manifest>,
                    s: Snapshot, sources: seq<SourceFile>)
    requires ToolSound(t) && SnapshotOk(t, projectId, data, library, s)
    requires AssetsOk(t, options, s.files, s.paths, s.pathPool, sources, SnapshotLines(s, library))
    ensures |s.paths| == |s.files| == |sources| && |s.chunkIds| == |s.blocks|
  {
    hide ToolSound, LibraryOk, BlockAt, AssetAt, SegmentNeeded, SnapshotLines, ById, Storage.FileTotal;
  }

  /** The printer accepts the catalog exactly when its segments and its length are within the limits. */
  lemma CatalogCounts(p: Press, s: Snapshot, e: EncryptedPages, slots: seq<PathSlot>)
    requires BlocksAccepted(s.blocks) && |s.chunkIds| == |s.blocks| <= MAX_BLOCKS && |s.files| <= MAX_FILES
    requires Paginated(p.pages, e, s.blocks, s.chunkIds) && Uniform(s.chunkIds, REUSE_RECORD_SIZE)
    requires |slots| == SlotCount(|s.files|) && |s.pathPool| <= MAX_PATH_POOL_LEN && Typed(CatalogOf(s, slots, e))
    ensures Catalogs.Encoded(CatalogOf(s, slots, e)).Some?
            <==> |s.segments| <= MAX_SEGMENTS && CatalogLen(s) <= MAX_CATALOG_PLAIN_LEN
  {
    hide BlocksAccepted, Uniform, Typed, Image, PowerOfTwo, PathIndex.NextPowerOfTwo, Sealed, PlainPages;
    PageCounts(p.pages, e, s.blocks, s.chunkIds);
  }

  lemma NamesUniform(s: Snapshot)
    requires NamesFit(s)
    ensures Uniform(s.chunkIds, REUSE_RECORD_SIZE)
  {
  }

  /** A catalog that the printer accepts is small enough for its offsets. */
  lemma EncodedPrintable(d: CatalogData)
    requires Typed(d) && Catalogs.Encoded(d).Some?
    ensures Printable(d) && Addressable(d, USIZE_MAX)
  {
    hide Typed, Image, PowerOfTwo;
  }

  /** Every record of a published catalog fits its fields. */
  lemma CatalogTyped(t: Tool, options: Options, projectId: Bytes, data: map<Bytes, Bytes>,
                     library: map<Bytes, Manifest>, s: Snapshot, sources: seq<SourceFile>, p: Press, e: EncryptedPages,
                     slots: seq<PathSlot>)
    requires Given(t, options, projectId, data, library, s, sources, p) && NamesFit(s) && |s.blocks| <= MAX_BLOCKS
    requires BlocksAccepted(s.blocks) && |s.chunkIds| == |s.blocks| && Paginated(p.pages, e, s.blocks, s.chunkIds)
    requires Uniform(s.chunkIds, REUSE_RECORD_SIZE) && PathIndex.SlotsFit(slots, |s.files|)
    ensures Typed(CatalogOf(s, slots, e))
  {
    hide ToolSound, LibraryOk, BlockAt, AssetAt, SegmentNeeded, SnapshotLines, ById, Storage.FileTotal, Paginated,
         BlocksAccepted, SegmentFits, FileFits, PageFits, SlotFits, PageOk, PageLengthsCanonical, PageCountsOk, Uniform,
         PressSound;
    var d := CatalogOf(s, slots, e);
    WordSizes();
    DirectoryAccepted(p.pages, e, s.blocks, s.chunkIds);
    PageCounts(p.pages, e, s.blocks, s.chunkIds);
    forall i | 0 <= i < |d.segments|
      ensures SegmentFits(d.segments[i])
    {
      SegmentTyped(t, projectId, data, library, s, i);
    }
    forall i | 0 <= i < |d.files|
      ensures FileFits(d.files[i])
    {
      FileTyped(t, options, s, library, sources[i], i);
    }
    forall i | 0 <= i < |d.pages|
      ensures PageFits(d.pages[i])
    {
      PageTyped(p.pages, e, s.blocks, s.chunkIds, i);
    }
  }

  lemma SegmentTyped(t: Tool, projectId: Bytes, data: map<Bytes, Bytes>, library: map<Bytes, Manifest>, s: Snapshot,
                     i: nat)
    requires LibraryOk(t, projectId, data, s.segments, library) && i < |s.segments| && |s.segments[i].id| == DIGEST_SIZE
    ensures SegmentFits(s.segments[i])
  {
    hide Holds, SegmentFile, StoredTotal;
    WordSizes();
    assert Stored(t, projectId, data, s.segments[i], library[s.segments[i].id]);
  }

  lemma FileTyped(t: Tool, options: Options, s: Snapshot, library: map<Bytes, Manifest>, source: SourceFile, i: nat)
    requires ToolSound(t) && |s.files| == |s.paths| && i < |s.files| && |s.blocks| < U32_LIMIT
    requires AssetAt(t, options, s.files, s.paths, s.pathPool, source, SnapshotLines(s, library), i)
    ensures FileFits(s.files[i])
  {
    hide ToolSound, SnapshotLines, ChunksOf, OffsetOf, Classify;
    WordSizes();
    ClassifiedOk(t, source);
  }

  lemma PageCounts(c: PageCrypto, e: EncryptedPages, blocks: seq<BlockRef>, ids: seq<Bytes>)
    requires BlocksAccepted(blocks) && |blocks| == |ids| <= MAX_BLOCKS && Paginated(c, e, blocks, ids)
    requires Uniform(ids, REUSE_RECORD_SIZE)
    ensures e.mapCount + e.reuseCount == |e.directory| <= MAX_PAGES
  {
    DirectoryAccepted(c, e, blocks, ids);
  }

  lemma PageTyped(c: PageCrypto, e: EncryptedPages, blocks: seq<BlockRef>, ids: seq<Bytes>, i: nat)
    requires BlocksAccepted(blocks) && |blocks| == |ids| <= MAX_BLOCKS && Paginated(c, e, blocks, ids)
    requires Uniform(ids, REUSE_RECORD_SIZE)
    requires i < |e.directory| && |e.directory| <= MAX_PAGES
    ensures PageFits(e.directory[i])
  {
    hide BlocksAccepted, PlainPages, PageLengthsCanonical, OpenPage;
    WordSizes();
    DirectoryAccepted(c, e, blocks, ids);
    var plains := PlainPages(blocks, ids, e.mapCount, e.reuseCount);
    SealedParts(c, e.directory, e.ciphertexts, plains, i);
    assert SealedAt(c, e.directory, e.ciphertexts, plains, i);
  }

  /** The packer-only reader over the printed pages. */
  method ReadReuse(s: Snapshot, p: Press, e: Printed) returns (r: Result<seq<ReuseRecord>>)
    requires PrintedOk(p, s, e)
    ensures |s.chunkIds| == |s.blocks| && r == Ok(Zip(s.chunkIds, s.blocks))
  {
    hide Paginated, BlocksAccepted, Indexed, CatalogOf, Join, Uniform;
    r := ReuseRecords(p.pages, e.pages, Join(e.pages.ciphertexts), |s.blocks|, s.blocks, s.chunkIds);
  }
}
