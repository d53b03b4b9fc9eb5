/** A release of one file: everything that is assumed elsewhere can hold at once, with a segment in the release. */
module SmallRelease {
  import opened Basics
  import opened Wire
  import opened Records
  import opened Tables
  import opened Catalogs
  import opened Pages
  import opened BlockStore
  import opened Sources
  import opened SegmentStore
  import opened Placement
  import opened Builds
  import opened Packing
  import opened Releases
  import opened Assets
  import opened Printing
  import opened Comparing
  import opened Rotation
  import opened Limits
  import opened Publishing
  import Storage

  const PATH: Bytes := [0x61]
  const BODY: Bytes := [0x68]
  const PROJECT: Bytes := Zeros(16)
  const UID: Bytes := Zeros(16)
  const SALT: Bytes := Zeros(16)
  const NONCE: Bytes := Zeros(8)
  const OPTIONS: Options := Options(true, 1, false, MIN_SEGMENT_TARGET, 3, [])
  const SOURCE: SourceFile := SourceFile(PATH, 1, Stamp(1, None, 0, 0), BODY, true, true)

  /** The one block as it lies in the segment: stored as it is, with a tag. */
  const SEALED: Bytes := BODY + Zeros(TAG_SIZE)

  const HEADER: SegmentHeader := SegmentHeader(PROJECT, UID, SALT, NONCE, 1, |SEALED|, SEGMENT_HEADER_SIZE + |SEALED|)

  function File(): Bytes
    requires SegmentHeaderFits(HEADER)
  {
    EncodeSegmentHeader(HEADER) + SEALED
  }

  lemma HeaderFits()
    ensures SegmentHeaderFits(HEADER)
  {
    WordSizes();
  }

  function Toolbox(): Tool
    requires SegmentHeaderFits(HEADER)
  {
    ToolFor([File(), BODY], [SEALED])
  }

  function Segment(): SegmentRecord
    requires SegmentHeaderFits(HEADER)
  {
    SegmentRecord(Toolbox().hash(File()), UID, SALT, NONCE, SEGMENT_HEADER_SIZE + |SEALED|, |SEALED|, 1, Required)
  }

  function Block(): BlockRef
    requires SegmentHeaderFits(HEADER)
  {
    BlockRef(0, 0, 0, SEGMENT_HEADER_SIZE, |SEALED|, 1, Raw, Toolbox().crypto.digest(SEALED))
  }

  function Stocked(): Manifest
    requires SegmentHeaderFits(HEADER)
  {
    [StoredBlock(SEGMENT_HEADER_SIZE, |SEALED|, 3, Raw, Toolbox().crypto.digest(SEALED), BODY)]
  }

  /** The release: one segment with one block, one file. */
  ghost function OneFile(): Snapshot
    requires SegmentHeaderFits(HEADER) && ToolSound(Toolbox())
  {
    Snapshot(1, Fingerprint(Toolbox(), OPTIONS, [SOURCE]), [Segment()], [RecordOf(Toolbox(), SOURCE, 0, 0)], [PATH],
             PATH, [Block()], [Toolbox().hash(BODY)])
  }

  lemma OneChunk()
    requires SegmentHeaderFits(HEADER) && ToolSound(Toolbox())
    ensures ChunksOf(Toolbox(), SOURCE) == [BODY] && OffsetOf([BODY], 0) == 0
    ensures RecordOf(Toolbox(), SOURCE, 0, 0) == FileRecord(0, 1, ContentDefined, Normal, 1, 0, 1, 0)
  {
    hide ToolSound, NameFor;
    var t := Toolbox();
    assert t.cut(BODY) == [1] && SumOf([1][1..]) == 0;
    assert CutChunks(BODY, [1]) == [BODY[..1]] + CutChunks(BODY[1..], [1][1..]);
    assert BODY[..1] == BODY;
    assert [BODY][..0] == [];
  }

  lemma BlockSealed()
    requires SegmentHeaderFits(HEADER)
    ensures SealedBlock(Toolbox(), UID, 0, 3, Raw, BODY) == SEALED
  {
    hide NameFor;
  }

  lemma SegmentStored()
    requires SegmentHeaderFits(HEADER)
    ensures Stored(Toolbox(), PROJECT, map[Segment().id := File()], Segment(), Stocked())
  {
    hide EncodeSegmentHeader, NameFor, SealedBlock, ToolFor, Holds;
    var t := Toolbox();
    BlockSealed();
    HoldsNothing(t, UID);
    HoldsOneMore(t, UID, [], [], Stocked()[0]);
    assert [] + SEALED == SEALED && [] + [Stocked()[0]] == Stocked();
    FinishedIsStored(t, PROJECT, map[Segment().id := File()], Segment(), SEALED, Stocked());
  }

  lemma ReleaseIsWhole()
    requires SegmentHeaderFits(HEADER) && ToolSound(Toolbox())
    ensures ReleaseHolds(Toolbox(), PROJECT, map[Segment().id := File()], map[Segment().id := Stocked()], OneFile(),
                         OPTIONS, [SOURCE])
  {
    hide ToolSound, Stored, ToolFor, File, ChunksOf, OffsetOf, RecordOf, Fingerprint;
    OneChunk();
    SegmentStored();
    var s, library := OneFile(), map[Segment().id := Stocked()];
    assert s.blocks[0].segmentOrdinal == 0;
    assert Storage.FileTotal(s.segments[..0]) == 0;
    assert SnapshotLines(s, library) == [Line(0, Required, BODY)];
    assert PATH[0..1] == PATH;
    assert AssetAt(Toolbox(), OPTIONS, s.files, s.paths, s.pathPool, SOURCE, SnapshotLines(s, library), 0);
  }

  // ------------------------------------------------------------------------ printing it

  lemma BlockPrints()
    requires SegmentHeaderFits(HEADER) && ToolSound(Toolbox())
    ensures BlocksAccepted([Block()])
  {
    hide ToolSound, EncodeSegmentHeader;
    WordSizes();
    ToolSoundPossible([File(), BODY], [SEALED]);
  }

  /** The two pages, sealed. */
  ghost function PageCiphers(): (ciphers: seq<Bytes>)
    requires SegmentHeaderFits(HEADER) && BlocksAccepted([Block()])
    ensures |ciphers| == 2
  {
    [MapPage(0, [Block()]) + Zeros(TAG_SIZE), ReusePage(0, [Toolbox().hash(BODY)]) + Zeros(TAG_SIZE)]
  }

  ghost function Printer(): Press
    requires SegmentHeaderFits(HEADER) && BlocksAccepted([Block()])
  {
    PressWith(PageCiphers())
  }

  lemma PagesFit()
    requires SegmentHeaderFits(HEADER) && BlocksAccepted([Block()])
    ensures DigestsFit(Printer().pages, 3, [Block()], [Toolbox().hash(BODY)])
  {
    hide MapPage, ReusePage, Block, Toolbox, NameFor, File, PressWith, PressSound, DigestFits, BlocksAccepted,
         PageSlice;
    MapPageFits();
    ReusePageFits();
    assert MapDigestsFit(Printer().pages, 3, [Block()], 1);
    assert ReuseDigestsFit(Printer().pages, 3, [Toolbox().hash(BODY)], 1, 1);
  }

  lemma MapPageFits()
    requires SegmentHeaderFits(HEADER) && BlocksAccepted([Block()])
    ensures MapDigestFits(Printer().pages, 3, [Block()], 0)
  {
    hide MapPage, ReusePage, Block, Toolbox, NameFor, File, PressSound, BlocksAccepted;
    PressSoundPossible(PageCiphers());
    assert PageSlice([Block()], 0, BLOCKS_PER_MAP_PAGE) == [Block()];
    assert PageCiphers()[0] in PageCiphers();
  }

  lemma ReusePageFits()
    requires SegmentHeaderFits(HEADER) && BlocksAccepted([Block()])
    ensures ReuseDigestFits(Printer().pages, 3, [Toolbox().hash(BODY)], 1, 0)
  {
    var ids := [Toolbox().hash(BODY)];
    hide MapPage, ReusePage, Block, Toolbox, NameFor, File, PressSound, BlocksAccepted;
    PressSoundPossible(PageCiphers());
    assert PageSlice(ids, 0, REUSE_PER_PAGE) == ids;
    assert PageCiphers()[1] in PageCiphers();
  }

  lemma NamesHaveWidths()
    requires SegmentHeaderFits(HEADER) && ToolSound(Toolbox())
    ensures NamesFit(OneFile())
  {
    hide ToolSound, File, Fingerprint, RecordOf, ToolFor;
    ToolSoundPossible([File(), BODY], [SEALED]);
    assert File() in [File(), BODY] && BODY in [File(), BODY] && SEALED in [SEALED];
  }

  lemma NothingSealed()
    ensures SealedLen([]) == 0
  {
  }

  lemma OneOfEach()
    requires SegmentHeaderFits(HEADER) && ToolSound(Toolbox())
    ensures AllChunks(Toolbox(), [SOURCE]) == [BODY] && PathBytes([SOURCE]) == 1
    ensures SealedLen([BODY]) == 1 + TAG_SIZE
  {
    OneChunk();
    hide ToolSound, ToolFor, File, ChunksOf, Classify, SealedLen;
    var sources := [SOURCE];
    assert sources[..|sources| - 1] == [] && [] + [BODY] == [BODY];
    Rotation.SealedAppend([], BODY);
    NothingSealed();
  }

  /** One draw is enough for the one file, and nothing else stands in its way. */
  lemma OneFileIsServed(canonical: Bytes -> bool)
    requires SegmentHeaderFits(HEADER) && ToolSound(Toolbox())
    ensures !Refusable(Toolbox(), canonical, None, map[], OPTIONS, [SOURCE], 1)
  {
    hide ToolSound, ToolFor, File, ChunksOf, Classify;
    OneChunk();
    var t := Toolbox();
    OneOfEach();
    hide AllChunks, PathBytes, SealedLen, SegmentsFor, Remembered;
    assert !Unpackable(t, OPTIONS, RememberedFiles(t, OPTIONS, None, map[], [SOURCE]), 1, [SOURCE]);
    assert !Crowded(t, OPTIONS, [], [SOURCE]);
  }

  /** The hypotheses on tools and printing hold together with a release of one segment, one block and one file that the
  format has room for. */
  lemma OneFileRelease()
    returns (t: Tool, p: Press, data: map<Bytes, Bytes>, library: map<Bytes, Manifest>, s: Snapshot)
    ensures Given(t, OPTIONS, PROJECT, data, library, s, [SOURCE], p)
    ensures ReleaseHolds(t, PROJECT, data, library, s, OPTIONS, [SOURCE])
    ensures OPTIONS.Accepted(p.canonical) && FitsFormat(p, OPTIONS.level, s)
    ensures |s.segments| == |s.blocks| == |s.files| == 1
    ensures !Refusable(t, p.canonical, None, map[], OPTIONS, [SOURCE], 1)
  {
    hide ToolSound, PressSound, SnapshotOk, AssetsOk, NameFor, ToolFor, File, DigestsFit, BlocksAccepted, PageCiphers,
         EncodeSegmentHeader, Fingerprint, RecordOf, NamesFit, Block, CatalogLen, Stocked, Refusable;
    HeaderFits();
    ToolSoundPossible([File(), BODY], [SEALED]);
    BlockPrints();
    PressSoundPossible(PageCiphers());
    t, p := Toolbox(), Printer();
    ReleaseIsWhole();
    NamesHaveWidths();
    PagesFit();
    data, library, s := map[Segment().id := File()], map[Segment().id := Stocked()], OneFile();
    OneCatalog(s);
    OneFileIsServed(p.canonical);
  }

  lemma OneCatalog(s: Snapshot)
    requires |s.segments| == |s.files| == |s.blocks| == |s.pathPool| == 1
    ensures CatalogLen(s) <= MAX_CATALOG_PLAIN_LEN
  {
  }
}
