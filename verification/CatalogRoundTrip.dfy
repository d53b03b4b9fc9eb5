/** The catalog printer and parser are inverse, on every supported word size. */
module CatalogRoundTrip {
  import opened Basics
  import opened Wire
  import opened Records
  import opened Tables
  import opened Catalogs

  // ------------------------------------------------------ printing, then parsing

  function PoolSlice(pool: Bytes, r: FileRecord): Bytes
    requires r.pathOffset + r.pathLen <= |pool|
  {
    pool[r.pathOffset..r.pathOffset + r.pathLen]
  }

  ghost predicate DataFileValid(d: CatalogData, r: FileRecord, canonical: Bytes -> bool) {
    && LayoutConsistent(r) && FileRangesOk(r, |d.pathPool|, d.totalBlocks, MIN_WORD_MAX)
    && canonical(PoolSlice(d.pathPool, r))
  }

  /** The cross-record conditions, stated on the data and not on bytes. */
  ghost predicate DataValid(d: CatalogData, canonical: Bytes -> bool) {
    && PageCountsOk(d.totalBlocks, d.mapPageCount, d.reusePageCount)
    && (forall i :: 0 <= i < |d.segments| ==> SegmentOk(d.segments[i]))
    && (forall i :: 0 <= i < |d.files| ==> DataFileValid(d, d.files[i], canonical))
    && (forall i :: 0 <= i < |d.pathSlots| ==> SlotOk(d.pathSlots[i], |d.files|))
    && DataPagesValid(d)
  }

  ghost predicate DataPagesValid(d: CatalogData) {
    forall i :: 0 <= i < |d.pages| ==>
      && PageLengthsCanonical(d.pages[i])
      && PageOk(d.pages[i], i, d.mapPageCount, d.totalBlocks, PageStart(d.pages, i))
  }

  ghost function ViewOf(d: CatalogData, wordMax: nat): Catalog
    requires Typed(d)
  {
    Catalog(wordMax, Image(d), |d.segments|, |d.files|, d.totalBlocks, |d.pathPool|, |d.pathSlots|, |d.pages|,
            d.mapPageCount, d.reusePageCount, d.FileOffset(), d.SlotOffset(), d.PoolOffset(), d.PageOffset())
  }

  /** A catalog small enough for its offsets to fit their fields. */
  ghost predicate Printable(d: CatalogData) {
    Typed(d) && DataCountsAccepted(d) && d.PageOffset() < U32_LIMIT
  }

  /** The target has at least 32-bit addresses and can hold the image in memory. */
  predicate Addressable(d: CatalogData, wordMax: nat) {
    wordMax >= MIN_WORD_MAX && d.TotalLen() <= wordMax
  }

  lemma HeaderReadsIdentity(d: CatalogData)
    ensures var b := HeaderImage(d);
            b[..8] == CATALOG_MAGIC && ReadLe(b, 8, 2) == FORMAT_MAJOR && ReadLe(b, 10, 2) == CATALOG_HEADER_SIZE
  {
    hide Le, UnLe, Pow256, Typed, PowerOfTwo, Zeros;
    var b := HeaderImage(d);
    WordSizes();
    ReadsArray(b, 0, CATALOG_MAGIC);
    assert b[..8] == b[0..0 + 8];
    ReadsNumber(b, 8, FORMAT_MAJOR, 2);
    ReadsNumber(b, 10, CATALOG_HEADER_SIZE, 2);
  }

  lemma HeaderReadsRecordCounts(d: CatalogData)
    requires Printable(d)
    ensures var b := HeaderImage(d); ReadLe(b, 12, 4) == |d.segments| && ReadLe(b, 16, 4) == |d.files|
  {
    hide Le, UnLe, Pow256, Typed, PowerOfTwo, Zeros;
    var b := HeaderImage(d);
    WordSizes();
    ReadsNumber(b, 12, |d.segments|, 4);
    ReadsNumber(b, 16, |d.files|, 4);
  }

  lemma HeaderReadsBlockCounts(d: CatalogData)
    requires Printable(d)
    ensures var b := HeaderImage(d); ReadLe(b, 20, 4) == d.totalBlocks && ReadLe(b, 24, 4) == |d.pathPool|
  {
    hide Le, UnLe, Pow256, Typed, PowerOfTwo, Zeros;
    var b := HeaderImage(d);
    WordSizes();
    ReadsNumber(b, 20, d.totalBlocks, 4);
    ReadsNumber(b, 24, |d.pathPool|, 4);
  }

  lemma HeaderReadsSlotCounts(d: CatalogData)
    requires Printable(d)
    ensures var b := HeaderImage(d); ReadLe(b, 28, 4) == |d.pathSlots| && ReadLe(b, 32, 4) == |d.pages|
  {
    hide Le, UnLe, Pow256, Typed, PowerOfTwo, Zeros;
    var b := HeaderImage(d);
    WordSizes();
    ReadsNumber(b, 28, |d.pathSlots|, 4);
    ReadsNumber(b, 32, |d.pages|, 4);
  }

  lemma HeaderReadsPageCounts(d: CatalogData)
    requires Printable(d)
    ensures var b := HeaderImage(d); ReadLe(b, 36, 4) == d.mapPageCount && ReadLe(b, 40, 4) == d.reusePageCount
  {
    hide Le, UnLe, Pow256, Typed, PowerOfTwo, Zeros;
    var b := HeaderImage(d);
    WordSizes();
    ReadsNumber(b, 36, d.mapPageCount, 4);
    ReadsNumber(b, 40, d.reusePageCount, 4);
  }

  lemma HeaderReadsRecordOffsets(d: CatalogData)
    requires Printable(d)
    ensures var b := HeaderImage(d);
            && ReadLe(b, 44, 4) == CATALOG_HEADER_SIZE && ReadLe(b, 48, 4) == d.FileOffset()
            && ReadLe(b, 52, 4) == d.SlotOffset()
  {
    hide Le, UnLe, Pow256, Typed, PowerOfTwo, Zeros;
    var b := HeaderImage(d);
    WordSizes();
    ReadsNumber(b, 44, CATALOG_HEADER_SIZE, 4);
    ReadsNumber(b, 48, d.FileOffset(), 4);
    ReadsNumber(b, 52, d.SlotOffset(), 4);
  }

  lemma HeaderReadsPageOffsets(d: CatalogData)
    requires Printable(d)
    ensures var b := HeaderImage(d); ReadLe(b, 56, 4) == d.PoolOffset() && ReadLe(b, 60, 4) == d.PageOffset()
  {
    hide Le, UnLe, Pow256, Typed, PowerOfTwo, Zeros;
    var b := HeaderImage(d);
    WordSizes();
    ReadsNumber(b, 56, d.PoolOffset(), 4);
    ReadsNumber(b, 60, d.PageOffset(), 4);
  }

  /** The header fields of `d`, found in `b`. */
  ghost predicate HeaderFields(b: Bytes, d: CatalogData)
    requires CATALOG_HEADER_SIZE <= |b|
  {
    && b[..8] == CATALOG_MAGIC && ReadLe(b, 8, 2) == FORMAT_MAJOR && ReadLe(b, 10, 2) == CATALOG_HEADER_SIZE
    && ReadLe(b, 12, 4) == |d.segments| && ReadLe(b, 16, 4) == |d.files| && ReadLe(b, 20, 4) == d.totalBlocks
    && ReadLe(b, 24, 4) == |d.pathPool| && ReadLe(b, 28, 4) == |d.pathSlots| && ReadLe(b, 32, 4) == |d.pages|
    && ReadLe(b, 36, 4) == d.mapPageCount && ReadLe(b, 40, 4) == d.reusePageCount
    && ReadLe(b, 44, 4) == CATALOG_HEADER_SIZE && ReadLe(b, 48, 4) == d.FileOffset()
    && ReadLe(b, 52, 4) == d.SlotOffset()
    && ReadLe(b, 56, 4) == d.PoolOffset() && ReadLe(b, 60, 4) == d.PageOffset()
  }

  lemma HeaderImageFields(d: CatalogData)
    requires Printable(d)
    ensures HeaderFields(HeaderImage(d), d)
  {
    hide HeaderImage, ReadLe, Typed;
    HeaderReadsIdentity(d);
    HeaderReadsRecordCounts(d);
    HeaderReadsBlockCounts(d);
    HeaderReadsSlotCounts(d);
    HeaderReadsPageCounts(d);
    HeaderReadsRecordOffsets(d);
    HeaderReadsPageOffsets(d);
  }

  /** Where each table lies in the image. */
  lemma ImageRegions(d: CatalogData)
    requires Typed(d)
    ensures var b := Image(d);
            && |b| == d.TotalLen() && b[..CATALOG_HEADER_SIZE] == HeaderImage(d)
            && |Join(SegmentParts(d.segments))| == |d.segments| * SEGMENT_RECORD_SIZE
            && |Join(FileParts(d.files))| == |d.files| * FILE_RECORD_SIZE
            && |Join(SlotParts(d.pathSlots))| == |d.pathSlots| * PATH_SLOT_SIZE
            && |Join(PageParts(d.pages))| == |d.pages| * PAGE_RECORD_SIZE
            && b[CATALOG_HEADER_SIZE..d.FileOffset()] == Join(SegmentParts(d.segments))
            && b[d.FileOffset()..d.SlotOffset()] == Join(FileParts(d.files))
            && b[d.SlotOffset()..d.PoolOffset()] == Join(SlotParts(d.pathSlots))
            && b[d.PoolOffset()..d.PageOffset()] == d.pathPool
            && b[d.PageOffset()..d.TotalLen()] == Join(PageParts(d.pages))
  {
    hide Join, HeaderImage, SegmentParts, FileParts, SlotParts, PageParts;
    JoinLength(SegmentParts(d.segments), SEGMENT_RECORD_SIZE);
    JoinLength(FileParts(d.files), FILE_RECORD_SIZE);
    JoinLength(SlotParts(d.pathSlots), PATH_SLOT_SIZE);
    JoinLength(PageParts(d.pages), PAGE_RECORD_SIZE);
  }

  lemma HeaderInside(b: Bytes, header: Bytes, d: CatalogData)
    requires CATALOG_HEADER_SIZE <= |b| && b[..CATALOG_HEADER_SIZE] == header
    requires HeaderFields(header, d)
    ensures HeaderFields(b, d)
  {
    hide UnLe;
    assert b[..8] == header[..8];
    assert b[8..8 + 2] == header[8..8 + 2] && b[10..10 + 2] == header[10..10 + 2];
    assert b[12..12 + 4] == header[12..12 + 4] && b[16..16 + 4] == header[16..16 + 4];
    assert b[20..20 + 4] == header[20..20 + 4] && b[24..24 + 4] == header[24..24 + 4];
    assert b[28..28 + 4] == header[28..28 + 4] && b[32..32 + 4] == header[32..32 + 4];
    assert b[36..36 + 4] == header[36..36 + 4] && b[40..40 + 4] == header[40..40 + 4];
    assert b[44..44 + 4] == header[44..44 + 4] && b[48..48 + 4] == header[48..48 + 4];
    assert b[52..52 + 4] == header[52..52 + 4] && b[56..56 + 4] == header[56..56 + 4];
    assert b[60..60 + 4] == header[60..60 + 4];
  }

  lemma HeaderPrinted(d: CatalogData, wordMax: nat)
    requires Printable(d) && Addressable(d, wordMax)
    ensures ParseHeader(Image(d), wordMax) == Some(ViewOf(d, wordMax))
  {
    hide Image, HeaderImage, ReadLe, Join, Typed, PowerOfTwo;
    ImageRegions(d);
    HeaderImageFields(d);
    HeaderInside(Image(d), HeaderImage(d), d);
  }

  lemma RegionSegment(d: CatalogData)
    requires Typed(d)
    ensures var table := Join(SegmentParts(d.segments));
            && |table| == |d.segments| * SEGMENT_RECORD_SIZE
            && CATALOG_HEADER_SIZE + |table| <= |Image(d)| == d.TotalLen()
            && Image(d)[CATALOG_HEADER_SIZE..CATALOG_HEADER_SIZE + |table|] == table
  {
    hide Image, Join, Typed, SegmentParts;
    ImageRegions(d);
  }

  lemma ReadsSegment(d: CatalogData, wordMax: nat, i: nat)
    requires Printable(d) && Addressable(d, wordMax) && i < |d.segments|
    ensures ViewOf(d, wordMax).Segment(i) == Some(d.segments[i])
  {
    hide Image, Join, EncodeSegment, ParseSegment, PowerOfTwo, SegmentFits;
    RegionSegment(d);
    TableAt(Image(d), CATALOG_HEADER_SIZE, SegmentParts(d.segments), SEGMENT_RECORD_SIZE, i, i * SEGMENT_RECORD_SIZE);
    SegmentRoundTrip(Image(d), CATALOG_HEADER_SIZE + i * SEGMENT_RECORD_SIZE, d.segments[i]);
  }

  lemma RegionFile(d: CatalogData)
    requires Typed(d)
    ensures var table := Join(FileParts(d.files));
            && |table| == |d.files| * FILE_RECORD_SIZE && d.FileOffset() + |table| <= |Image(d)| == d.TotalLen()
            && Image(d)[d.FileOffset()..d.FileOffset() + |table|] == table
  {
    hide Image, Join, Typed, FileParts;
    ImageRegions(d);
  }

  lemma ReadsFile(d: CatalogData, wordMax: nat, i: nat)
    requires Printable(d) && Addressable(d, wordMax) && i < |d.files|
    ensures ViewOf(d, wordMax).File(i) == if LayoutConsistent(d.files[i]) then Some(d.files[i]) else None
  {
    hide Image, Join, EncodeFile, ParseFile, PowerOfTwo, FileFits;
    RegionFile(d);
    TableAt(Image(d), d.FileOffset(), FileParts(d.files), FILE_RECORD_SIZE, i, i * FILE_RECORD_SIZE);
    FileRoundTrip(Image(d), d.FileOffset() + i * FILE_RECORD_SIZE, d.files[i]);
  }

  lemma RegionSlot(d: CatalogData)
    requires Typed(d)
    ensures var table := Join(SlotParts(d.pathSlots));
            && |table| == |d.pathSlots| * PATH_SLOT_SIZE && d.SlotOffset() + |table| <= |Image(d)| == d.TotalLen()
            && Image(d)[d.SlotOffset()..d.SlotOffset() + |table|] == table
  {
    hide Image, Join, Typed, SlotParts;
    ImageRegions(d);
  }

  lemma ReadsSlot(d: CatalogData, wordMax: nat, i: nat)
    requires Printable(d) && Addressable(d, wordMax) && i < |d.pathSlots|
    ensures ViewOf(d, wordMax).Slot(i) == Some(d.pathSlots[i])
  {
    hide Image, Join, EncodeSlot, ParseSlot, PowerOfTwo, SlotFits;
    RegionSlot(d);
    TableAt(Image(d), d.SlotOffset(), SlotParts(d.pathSlots), PATH_SLOT_SIZE, i, i * PATH_SLOT_SIZE);
    SlotRoundTrip(Image(d), d.SlotOffset() + i * PATH_SLOT_SIZE, d.pathSlots[i]);
  }

  lemma RegionPage(d: CatalogData)
    requires Typed(d)
    ensures var table := Join(PageParts(d.pages));
            && |table| == |d.pages| * PAGE_RECORD_SIZE && d.PageOffset() + |table| <= |Image(d)| == d.TotalLen()
            && Image(d)[d.PageOffset()..d.PageOffset() + |table|] == table
  {
    hide Image, Join, Typed, PageParts;
    ImageRegions(d);
  }

  lemma ReadsPage(d: CatalogData, wordMax: nat, i: nat)
    requires Printable(d) && Addressable(d, wordMax) && i < |d.pages|
    ensures ViewOf(d, wordMax).Page(i) == if PageLengthsCanonical(d.pages[i]) then Some(d.pages[i]) else None
  {
    hide Image, Join, EncodePage, ParsePage, PowerOfTwo, PageFits;
    RegionPage(d);
    TableAt(Image(d), d.PageOffset(), PageParts(d.pages), PAGE_RECORD_SIZE, i, i * PAGE_RECORD_SIZE);
    PageRoundTrip(Image(d), d.PageOffset() + i * PAGE_RECORD_SIZE, d.pages[i]);
  }

  lemma ReadsPath(d: CatalogData, wordMax: nat, i: nat)
    requires Printable(d) && Addressable(d, wordMax) && i < |d.files|
    requires LayoutConsistent(d.files[i]) && d.files[i].pathOffset + d.files[i].pathLen <= |d.pathPool|
    ensures ViewOf(d, wordMax).Path(i) == Some(PoolSlice(d.pathPool, d.files[i]))
  {
    hide Image, Typed, PowerOfTwo, Catalog.File;
    ReadsFile(d, wordMax, i);
    PoolRead(d, d.files[i].pathOffset, d.files[i].pathLen);
  }

  lemma PoolRead(d: CatalogData, lo: nat, size: nat)
    requires Typed(d) && lo + size <= |d.pathPool|
    ensures d.PoolOffset() + lo + size <= |Image(d)| == d.TotalLen()
    ensures Image(d)[d.PoolOffset() + lo..d.PoolOffset() + lo + size] == d.pathPool[lo..lo + size]
  {
    hide Image, Typed, CatalogData.PoolOffset, CatalogData.TotalLen;
    PoolRegion(d);
    SliceOfSlice(Image(d), d.PoolOffset(), |d.pathPool|, lo, size);
  }

  lemma PoolRegion(d: CatalogData)
    requires Typed(d)
    ensures d.PoolOffset() + |d.pathPool| <= |Image(d)| == d.TotalLen()
    ensures Image(d)[d.PoolOffset()..d.PoolOffset() + |d.pathPool|] == d.pathPool
  {
    hide Image, Join, Typed, SegmentParts, FileParts, SlotParts, PageParts;
    ImageRegions(d);
  }

  lemma FileValidEither(d: CatalogData, wordMax: nat, i: nat, canonical: Bytes -> bool)
    requires Printable(d) && Addressable(d, wordMax) && i < |d.files|
    ensures FileValid(ViewOf(d, wordMax), i, canonical) <==> DataFileValid(d, d.files[i], canonical)
  {
    hide Image, Join;
    ReadsFile(d, wordMax, i);
    if LayoutConsistent(d.files[i]) && d.files[i].pathOffset + d.files[i].pathLen <= |d.pathPool| {
      ReadsPath(d, wordMax, i);
    }
  }

  lemma PagesValidEither(d: CatalogData, wordMax: nat)
    requires Printable(d) && Addressable(d, wordMax)
    ensures PagesValid(ViewOf(d, wordMax), |d.pages|) <==> DataPagesValid(d)
  {
    hide Image, Join, PageOk;
    var v := ViewOf(d, wordMax);
    forall i | 0 <= i < |d.pages|
      ensures v.Page(i) == if PageLengthsCanonical(d.pages[i]) then Some(d.pages[i]) else None
    {
      ReadsPage(d, wordMax, i);
    }
    if PagesReadable(v, |d.pages|) {
      assert DecodedPages(v, |d.pages|) == d.pages;
    }
  }

  lemma RecordsValidEither(d: CatalogData, wordMax: nat, canonical: Bytes -> bool)
    requires Printable(d) && Addressable(d, wordMax)
    ensures RecordsValid(ViewOf(d, wordMax), canonical) <==> DataValid(d, canonical)
  {
    hide Image, Join, Typed, FileValid, DataFileValid, PagesValid, DataPagesValid, SegmentOk, SlotOk;
    var v := ViewOf(d, wordMax);
    forall i | 0 <= i < |d.segments|
      ensures v.Segment(i) == Some(d.segments[i])
    {
      ReadsSegment(d, wordMax, i);
    }
    forall i | 0 <= i < |d.files|
      ensures FileValid(v, i, canonical) <==> DataFileValid(d, d.files[i], canonical)
    {
      FileValidEither(d, wordMax, i, canonical);
    }
    forall i | 0 <= i < |d.pathSlots|
      ensures v.Slot(i) == Some(d.pathSlots[i])
    {
      ReadsSlot(d, wordMax, i);
    }
    PagesValidEither(d, wordMax);
  }

  /** The parser accepts what was printed exactly when the data meets the cross-record conditions, which
  the printer does not check; it then answers with the printed records. */
  lemma ParseOfImage(d: CatalogData, wordMax: nat, canonical: Bytes -> bool)
    requires Printable(d) && Addressable(d, wordMax)
    ensures Parsed(Image(d), wordMax, canonical) == if DataValid(d, canonical) then Some(ViewOf(d, wordMax)) else None
  {
    hide Image, RecordsValid, DataValid;
    HeaderPrinted(d, wordMax);
    RecordsValidEither(d, wordMax, canonical);
  }

  // ------------------------------------------------------ parsing, then printing

  /** What the accessors of an accepted catalog return, put back together. */
  ghost function Decoded(c: Catalog): (d: CatalogData)
    requires AllReadable(c)
    ensures |d.segments| == c.segmentCount && |d.files| == c.fileCount && |d.pathSlots| == c.slotCount
    ensures |d.pages| == c.pageCount
  {
    CatalogData(seq(c.segmentCount, i requires 0 <= i < c.segmentCount && c.Segment(i).Some? => c.Segment(i).value),
                seq(c.fileCount, i requires 0 <= i < c.fileCount && c.File(i).Some? => c.File(i).value),
                seq(c.slotCount, i requires 0 <= i < c.slotCount && c.Slot(i).Some? => c.Slot(i).value),
                c.bytes[c.poolOffset..c.pageOffset],
                DecodedPages(c, c.pageCount), c.totalBlocks, c.mapPageCount, c.reusePageCount)
  }

  ghost predicate AllReadable(c: Catalog) {
    && (forall i :: 0 <= i < c.segmentCount ==> c.Segment(i).Some?)
    && (forall i :: 0 <= i < c.fileCount ==> c.File(i).Some?)
    && (forall i :: 0 <= i < c.slotCount ==> c.Slot(i).Some?)
    && PagesReadable(c, c.pageCount)
    && c.poolOffset <= c.pageOffset <= |c.bytes|
  }

  /** The accessors give back every printed record. */
  lemma DecodedOfView(d: CatalogData, wordMax: nat, canonical: Bytes -> bool)
    requires Printable(d) && Addressable(d, wordMax) && DataValid(d, canonical)
    ensures AllReadable(ViewOf(d, wordMax)) && Decoded(ViewOf(d, wordMax)) == d
  {
    hide Image, Join, Typed, PowerOfTwo, Catalog.Segment, Catalog.File, Catalog.Slot, Catalog.Page;
    var v := ViewOf(d, wordMax);
    forall i | 0 <= i < |d.segments|
      ensures v.Segment(i) == Some(d.segments[i])
    {
      ReadsSegment(d, wordMax, i);
    }
    FilesRead(d, wordMax, canonical);
    forall i | 0 <= i < |d.pathSlots|
      ensures v.Slot(i) == Some(d.pathSlots[i])
    {
      ReadsSlot(d, wordMax, i);
    }
    PagesRead(d, wordMax, canonical);
    PoolRead(d, 0, |d.pathPool|);
    PoolEnds(d);
    ViewIsDecoded(v, d);
  }

  lemma PoolEnds(d: CatalogData)
    requires Typed(d) && |Image(d)| == d.TotalLen()
    ensures d.PoolOffset() + |d.pathPool| == d.PageOffset() <= |Image(d)|
  {
    hide Image, Typed;
  }

  lemma FilesRead(d: CatalogData, wordMax: nat, canonical: Bytes -> bool)
    requires Printable(d) && Addressable(d, wordMax) && DataValid(d, canonical)
    ensures forall i :: 0 <= i < |d.files| ==> ViewOf(d, wordMax).File(i) == Some(d.files[i])
  {
    hide Image, Typed, PowerOfTwo, Catalog.File;
    forall i | 0 <= i < |d.files|
      ensures ViewOf(d, wordMax).File(i) == Some(d.files[i])
    {
      ReadsFile(d, wordMax, i);
      assert DataFileValid(d, d.files[i], canonical);
    }
  }

  lemma PagesRead(d: CatalogData, wordMax: nat, canonical: Bytes -> bool)
    requires Printable(d) && Addressable(d, wordMax) && DataValid(d, canonical)
    ensures forall i :: 0 <= i < |d.pages| ==> ViewOf(d, wordMax).Page(i) == Some(d.pages[i])
  {
    hide Image, Typed, PowerOfTwo, Catalog.Page;
    forall i | 0 <= i < |d.pages|
      ensures ViewOf(d, wordMax).Page(i) == Some(d.pages[i])
    {
      ReadsPage(d, wordMax, i);
    }
  }

  lemma ViewIsDecoded(v: Catalog, d: CatalogData)
    requires v.segmentCount == |d.segments| && v.fileCount == |d.files| && v.slotCount == |d.pathSlots|
    requires v.pageCount == |d.pages| && v.totalBlocks == d.totalBlocks
    requires v.mapPageCount == d.mapPageCount && v.reusePageCount == d.reusePageCount
    requires forall i :: 0 <= i < |d.segments| ==> v.Segment(i) == Some(d.segments[i])
    requires forall i :: 0 <= i < |d.files| ==> v.File(i) == Some(d.files[i])
    requires forall i :: 0 <= i < |d.pathSlots| ==> v.Slot(i) == Some(d.pathSlots[i])
    requires forall i :: 0 <= i < |d.pages| ==> v.Page(i) == Some(d.pages[i])
    requires v.poolOffset <= v.pageOffset <= |v.bytes| && v.bytes[v.poolOffset..v.pageOffset] == d.pathPool
    ensures AllReadable(v) && Decoded(v) == d
  {
    hide Catalog.Segment, Catalog.File, Catalog.Slot, Catalog.Page;
    var d' := Decoded(v);
    assert d'.segments == d.segments;
    assert d'.files == d.files;
    assert d'.pathSlots == d.pathSlots;
    assert d'.pages == d.pages;
  }

  lemma SameNumberSameBytes(a: Bytes, b: Bytes, offset: nat, k: nat)
    requires InRange(a, offset, k) && InRange(b, offset, k) && ReadLe(a, offset, k) == ReadLe(b, offset, k)
    ensures forall i :: offset <= i < offset + k ==> a[i] == b[i]
  {
    UnLeThenLe(a[offset..offset + k]);
    UnLeThenLe(b[offset..offset + k]);
    var x, y := a[offset..offset + k], b[offset..offset + k];
    forall i | offset <= i < offset + k
      ensures a[i] == b[i]
    {
      assert x[i - offset] == y[i - offset];
    }
  }

  lemma SameFieldsSameHeader(a: Bytes, b: Bytes, d: CatalogData)
    requires |a| == CATALOG_HEADER_SIZE == |b| && HeaderFields(a, d) && HeaderFields(b, d)
    ensures a == b
  {
    hide ReadLe;
    assert forall i :: 0 <= i < 8 ==> a[..8][i] == a[i] && b[..8][i] == b[i];
    SameNumberSameBytes(a, b, 8, 2);
    SameNumberSameBytes(a, b, 10, 2);
    SameNumberSameBytes(a, b, 12, 4);
    SameNumberSameBytes(a, b, 16, 4);
    SameNumberSameBytes(a, b, 20, 4);
    SameNumberSameBytes(a, b, 24, 4);
    SameNumberSameBytes(a, b, 28, 4);
    SameNumberSameBytes(a, b, 32, 4);
    SameNumberSameBytes(a, b, 36, 4);
    SameNumberSameBytes(a, b, 40, 4);
    SameNumberSameBytes(a, b, 44, 4);
    SameNumberSameBytes(a, b, 48, 4);
    SameNumberSameBytes(a, b, 52, 4);
    SameNumberSameBytes(a, b, 56, 4);
    SameNumberSameBytes(a, b, 60, 4);
  }

  lemma AcceptedReadable(c: Catalog, bytes: Bytes, canonical: Bytes -> bool)
    requires ParseHeader(bytes, c.wordMax) == Some(c) && RecordsValid(c, canonical)
    ensures c.bytes == bytes && AllReadable(c)
  {
    forall i | 0 <= i < c.fileCount
      ensures c.File(i).Some?
    {
      assert FileValid(c, i, canonical);
    }
  }

  lemma ExactSegment(c: Catalog, i: nat)
    requires c.Segment(i).Some?
    ensures var r := c.Segment(i).value;
            SegmentFits(r) && CATALOG_HEADER_SIZE + i * SEGMENT_RECORD_SIZE + SEGMENT_RECORD_SIZE <= |c.bytes|
            && c.bytes[CATALOG_HEADER_SIZE + i * SEGMENT_RECORD_SIZE
                       ..CATALOG_HEADER_SIZE + i * SEGMENT_RECORD_SIZE + SEGMENT_RECORD_SIZE] == EncodeSegment(r)
  {
    assert ParseSegment(c.bytes, CATALOG_HEADER_SIZE + i * SEGMENT_RECORD_SIZE) == c.Segment(i);
    SegmentParseExact(c.bytes, CATALOG_HEADER_SIZE + i * SEGMENT_RECORD_SIZE);
  }

  lemma ExactFile(c: Catalog, i: nat)
    requires c.File(i).Some?
    ensures var r := c.File(i).value;
            FileFits(r) && c.fileOffset + i * FILE_RECORD_SIZE + FILE_RECORD_SIZE <= |c.bytes|
            && c.bytes[c.fileOffset + i * FILE_RECORD_SIZE..c.fileOffset + i * FILE_RECORD_SIZE + FILE_RECORD_SIZE]
                   == EncodeFile(r)
  {
    assert ParseFile(c.bytes, c.fileOffset + i * FILE_RECORD_SIZE) == c.File(i);
    FileParseExact(c.bytes, c.fileOffset + i * FILE_RECORD_SIZE);
  }

  lemma ExactSlot(c: Catalog, i: nat)
    requires c.Slot(i).Some?
    ensures var r := c.Slot(i).value;
            SlotFits(r) && c.slotOffset + i * PATH_SLOT_SIZE + PATH_SLOT_SIZE <= |c.bytes|
            && c.bytes[c.slotOffset + i * PATH_SLOT_SIZE..c.slotOffset + i * PATH_SLOT_SIZE + PATH_SLOT_SIZE]
                   == EncodeSlot(r)
  {
    assert ParseSlot(c.bytes, c.slotOffset + i * PATH_SLOT_SIZE) == c.Slot(i);
    SlotParseExact(c.bytes, c.slotOffset + i * PATH_SLOT_SIZE);
  }

  lemma ExactPage(c: Catalog, i: nat)
    requires c.Page(i).Some?
    ensures var r := c.Page(i).value;
            PageFits(r) && c.pageOffset + i * PAGE_RECORD_SIZE + PAGE_RECORD_SIZE <= |c.bytes|
            && c.bytes[c.pageOffset + i * PAGE_RECORD_SIZE..c.pageOffset + i * PAGE_RECORD_SIZE + PAGE_RECORD_SIZE]
                   == EncodePage(r)
  {
    assert ParsePage(c.bytes, c.pageOffset + i * PAGE_RECORD_SIZE) == c.Page(i);
    PageParseExact(c.bytes, c.pageOffset + i * PAGE_RECORD_SIZE);
  }

  lemma DecodedTyped(c: Catalog, bytes: Bytes)
    requires ParseHeader(bytes, c.wordMax) == Some(c) && AllReadable(c)
    ensures Printable(Decoded(c)) && Decoded(c).TotalLen() == |bytes|
    ensures Decoded(c).FileOffset() == c.fileOffset && Decoded(c).SlotOffset() == c.slotOffset
    ensures Decoded(c).PoolOffset() == c.poolOffset && Decoded(c).PageOffset() == c.pageOffset
  {
    hide ReadLe, PowerOfTwo, ParseSegment, ParseFile, ParseSlot, ParsePage, EncodeSegment, EncodeFile, EncodeSlot,
         EncodePage;
    var d := Decoded(c);
    forall i | 0 <= i < |d.segments|
      ensures SegmentFits(d.segments[i])
    {
      ExactSegment(c, i);
    }
    forall i | 0 <= i < |d.files|
      ensures FileFits(d.files[i])
    {
      ExactFile(c, i);
    }
    forall i | 0 <= i < |d.pathSlots|
      ensures SlotFits(d.pathSlots[i])
    {
      ExactSlot(c, i);
    }
    forall i | 0 <= i < |d.pages|
      ensures PageFits(d.pages[i])
    {
      ExactPage(c, i);
    }
    WritesNumber(bytes, 20, 4);
    WritesNumber(bytes, 36, 4);
    WritesNumber(bytes, 40, 4);
    WritesNumber(bytes, 60, 4);
    WordSizes();
  }

  /** The tables of an accepted catalog follow one another. */
  lemma RegionsFollow(c: Catalog, bytes: Bytes)
    requires ParseHeader(bytes, c.wordMax) == Some(c)
    ensures c.bytes == bytes && c.fileOffset == CATALOG_HEADER_SIZE + c.segmentCount * SEGMENT_RECORD_SIZE
    ensures c.slotOffset == c.fileOffset + c.fileCount * FILE_RECORD_SIZE
    ensures c.poolOffset == c.slotOffset + c.slotCount * PATH_SLOT_SIZE && c.poolOffset <= c.pageOffset
    ensures |bytes| == c.pageOffset + c.pageCount * PAGE_RECORD_SIZE
  {
    hide ReadLe, PowerOfTwo;
  }

  /** Part `i` of a table of equal parts that begins at `start`. */
  ghost predicate PartAt(bytes: Bytes, start: nat, parts: seq<Bytes>, size: nat, i: nat)
    requires i < |parts|
  {
    && |parts[i]| == size && start + i * size + size <= |bytes|
    && bytes[start + i * size..start + i * size + size] == parts[i]
  }

  lemma TableRebuilt(bytes: Bytes, start: nat, parts: seq<Bytes>, size: nat)
    requires start + |parts| * size <= |bytes| && forall i :: 0 <= i < |parts| ==> PartAt(bytes, start, parts, size, i)
    ensures Join(parts) == bytes[start..start + |parts| * size]
  {
    hide Join, PartAt;
    var len := |parts| * size;
    forall i | 0 <= i < |parts|
      ensures |parts[i]| == size && 0 <= i * size && i * size + size <= len
           && bytes[start..start + len][i * size..i * size + size] == parts[i]
    {
      PartInside(|parts|, size, i);
      PartOfTable(bytes, start, len, parts, size, i, i * size);
    }
    JoinCovers(bytes[start..start + len], parts, size);
  }

  lemma PartOfTable(bytes: Bytes, start: nat, len: nat, parts: seq<Bytes>, size: nat, i: nat, lo: nat)
    requires start + len <= |bytes| && i < |parts| && lo == i * size && lo + size <= len
    requires PartAt(bytes, start, parts, size, i)
    ensures |parts[i]| == size && bytes[start..start + len][lo..lo + size] == parts[i]
  {
    SliceOfSlice(bytes, start, len, lo, size);
  }

  lemma {:induction false} PartInside(count: nat, size: nat, i: nat)
    requires i < count
    ensures 0 <= i * size && i * size + size <= count * size
    decreases count
  {
    if i + 1 < count {
      PartInside(count - 1, size, i);
    }
  }

  lemma SegmentsReprinted(c: Catalog, bytes: Bytes)
    requires ParseHeader(bytes, c.wordMax) == Some(c) && AllReadable(c) && Printable(Decoded(c))
    ensures Join(SegmentParts(Decoded(c).segments)) == bytes[CATALOG_HEADER_SIZE..c.fileOffset]
  {
    hide ParseHeader, Join, EncodeSegment, Catalog.Segment;
    RegionsFollow(c, bytes);
    var parts := SegmentParts(Decoded(c).segments);
    forall i | 0 <= i < |parts|
      ensures PartAt(bytes, CATALOG_HEADER_SIZE, parts, SEGMENT_RECORD_SIZE, i)
    {
      ExactSegment(c, i);
    }
    TableRebuilt(bytes, CATALOG_HEADER_SIZE, parts, SEGMENT_RECORD_SIZE);
  }

  lemma FilesReprinted(c: Catalog, bytes: Bytes)
    requires ParseHeader(bytes, c.wordMax) == Some(c) && AllReadable(c)
    ensures Join(FileParts(Decoded(c).files)) == bytes[c.fileOffset..c.slotOffset]
  {
    hide ParseHeader, Join, EncodeFile, Catalog.File;
    RegionsFollow(c, bytes);
    var parts := FileParts(Decoded(c).files);
    forall i | 0 <= i < |parts|
      ensures PartAt(bytes, c.fileOffset, parts, FILE_RECORD_SIZE, i)
    {
      ExactFile(c, i);
    }
    TableRebuilt(bytes, c.fileOffset, parts, FILE_RECORD_SIZE);
  }

  lemma SlotsReprinted(c: Catalog, bytes: Bytes)
    requires ParseHeader(bytes, c.wordMax) == Some(c) && AllReadable(c)
    ensures Join(SlotParts(Decoded(c).pathSlots)) == bytes[c.slotOffset..c.poolOffset]
  {
    hide ParseHeader, Join, EncodeSlot, Catalog.Slot;
    RegionsFollow(c, bytes);
    var parts := SlotParts(Decoded(c).pathSlots);
    forall i | 0 <= i < |parts|
      ensures PartAt(bytes, c.slotOffset, parts, PATH_SLOT_SIZE, i)
    {
      ExactSlot(c, i);
    }
    TableRebuilt(bytes, c.slotOffset, parts, PATH_SLOT_SIZE);
  }

  lemma PagesReprinted(c: Catalog, bytes: Bytes)
    requires ParseHeader(bytes, c.wordMax) == Some(c) && AllReadable(c) && Printable(Decoded(c))
    ensures Join(PageParts(Decoded(c).pages)) == bytes[c.pageOffset..|bytes|]
  {
    hide ParseHeader, Join, EncodePage, Catalog.Page;
    RegionsFollow(c, bytes);
    var parts := PageParts(Decoded(c).pages);
    forall i | 0 <= i < |parts|
      ensures PartAt(bytes, c.pageOffset, parts, PAGE_RECORD_SIZE, i)
    {
      ExactPage(c, i);
    }
    TableRebuilt(bytes, c.pageOffset, parts, PAGE_RECORD_SIZE);
  }

  lemma HeaderReprinted(c: Catalog, bytes: Bytes)
    requires ParseHeader(bytes, c.wordMax) == Some(c) && AllReadable(c)
    ensures HeaderImage(Decoded(c)) == bytes[..CATALOG_HEADER_SIZE]
  {
    hide ReadLe, PowerOfTwo, HeaderImage;
    DecodedTyped(c, bytes);
    var d := Decoded(c);
    HeaderImageFields(d);
    assert HeaderFields(bytes, d);
    HeaderPrefix(bytes, d);
    SameFieldsSameHeader(HeaderImage(d), bytes[..CATALOG_HEADER_SIZE], d);
  }

  lemma HeaderPrefix(bytes: Bytes, d: CatalogData)
    requires CATALOG_HEADER_SIZE <= |bytes| && HeaderFields(bytes, d)
    ensures HeaderFields(bytes[..CATALOG_HEADER_SIZE], d)
  {
    hide UnLe;
    var b, header := bytes, bytes[..CATALOG_HEADER_SIZE];
    assert b[..8] == header[..8];
    assert b[8..8 + 2] == header[8..8 + 2] && b[10..10 + 2] == header[10..10 + 2];
    assert b[12..12 + 4] == header[12..12 + 4] && b[16..16 + 4] == header[16..16 + 4];
    assert b[20..20 + 4] == header[20..20 + 4] && b[24..24 + 4] == header[24..24 + 4];
    assert b[28..28 + 4] == header[28..28 + 4] && b[32..32 + 4] == header[32..32 + 4];
    assert b[36..36 + 4] == header[36..36 + 4] && b[40..40 + 4] == header[40..40 + 4];
    assert b[44..44 + 4] == header[44..44 + 4] && b[48..48 + 4] == header[48..48 + 4];
    assert b[52..52 + 4] == header[52..52 + 4] && b[56..56 + 4] == header[56..56 + 4];
    assert b[60..60 + 4] == header[60..60 + 4];
  }

  lemma Reprinted(c: Catalog, bytes: Bytes)
    requires ParseHeader(bytes, c.wordMax) == Some(c) && AllReadable(c)
    ensures Printable(Decoded(c)) && Image(Decoded(c)) == bytes
    ensures Decoded(c).TotalLen() == |bytes|
  {
    hide ReadLe, PowerOfTwo, HeaderImage, Join, SegmentParts, FileParts, SlotParts, PageParts, Typed;
    DecodedTyped(c, bytes);
    HeaderReprinted(c, bytes);
    SegmentsReprinted(c, bytes);
    FilesReprinted(c, bytes);
    SlotsReprinted(c, bytes);
    PagesReprinted(c, bytes);
    assert bytes == bytes[..CATALOG_HEADER_SIZE] + bytes[CATALOG_HEADER_SIZE..c.fileOffset]
                    + bytes[c.fileOffset..c.slotOffset] + bytes[c.slotOffset..c.poolOffset]
                    + bytes[c.poolOffset..c.pageOffset] + bytes[c.pageOffset..|bytes|];
  }

  /** Every accepted byte string is the image of what its accessors return, and those meet the
  cross-record conditions. Printing them gives the bytes back exactly when the length limit, which only
  the printer checks, is met. */
  lemma PrintOfParse(bytes: Bytes, wordMax: nat, canonical: Bytes -> bool)
    requires |bytes| <= wordMax && wordMax >= MIN_WORD_MAX
    requires Parsed(bytes, wordMax, canonical).Some?
    ensures var c := Parsed(bytes, wordMax, canonical).value;
            && AllReadable(c) && Typed(Decoded(c)) && DataValid(Decoded(c), canonical)
            && Image(Decoded(c)) == bytes && ViewOf(Decoded(c), wordMax) == c
            && Encoded(Decoded(c)) == if |bytes| <= MAX_CATALOG_PLAIN_LEN then Some(bytes) else None
  {
    var c := Parsed(bytes, wordMax, canonical).value;
    hide ParseHeader, RecordsValid, DataValid, Image, Typed, AllReadable;
    AcceptedReadable(c, bytes, canonical);
    Reprinted(c, bytes);
    ParseOfImage(Decoded(c), wordMax, canonical);
  }

  /** Acceptance and the decoded records do not depend on the word size: nothing wraps on a 32-bit target. */
  lemma WordSizeIrrelevant(bytes: Bytes, narrow: nat, wide: nat, canonical: Bytes -> bool)
    requires MIN_WORD_MAX <= narrow && MIN_WORD_MAX <= wide && |bytes| <= narrow && |bytes| <= wide
    requires Parsed(bytes, narrow, canonical).Some?
    ensures Parsed(bytes, wide, canonical) == Some(Parsed(bytes, narrow, canonical).value.(wordMax := wide))
  {
    hide ParseHeader, RecordsValid, DataValid, Image, Typed;
    var c := Parsed(bytes, narrow, canonical).value;
    PrintOfParse(bytes, narrow, canonical);
    AcceptedPrintable(bytes, narrow, canonical);
    ParseOfImage(Decoded(c), wide, canonical);
  }

  lemma AcceptedPrintable(bytes: Bytes, wordMax: nat, canonical: Bytes -> bool)
    requires |bytes| <= wordMax && wordMax >= MIN_WORD_MAX && Parsed(bytes, wordMax, canonical).Some?
    ensures var c := Parsed(bytes, wordMax, canonical).value;
            AllReadable(c) && Printable(Decoded(c)) && Decoded(c).TotalLen() == |bytes|
  {
    var c := Parsed(bytes, wordMax, canonical).value;
    AcceptedReadable(c, bytes, canonical);
    hide RecordsValid, Typed;
    DecodedTyped(c, bytes);
  }

  // --------------------------------------- the printer's limit is not the parser's

  /** An index of `n` empty slots and nothing else. */
  ghost function EmptyIndex(n: nat): CatalogData {
    CatalogData([], [], seq(n, _ => PathSlot(0, EMPTY_PATH_SLOT)), [], [], 0, 0, 0)
  }

  /** The parser accepts an index of empty slots that is too large for the printer. */
  lemma OversizedAccepted(n: nat, canonical: Bytes -> bool)
    requires PowerOfTwo(n) && MAX_CATALOG_PLAIN_LEN < CATALOG_HEADER_SIZE + n * PATH_SLOT_SIZE < U32_LIMIT
    ensures Typed(EmptyIndex(n)) && Encoded(EmptyIndex(n)) == None
    ensures Parsed(Image(EmptyIndex(n)), MIN_WORD_MAX, canonical).Some?
  {
    hide Image, PowerOfTwo;
    var d := EmptyIndex(n);
    WordSizes();
    ParseOfImage(d, MIN_WORD_MAX, canonical);
  }

  /** Such an index exists: 2^23 slots. */
  lemma OversizedExists()
    ensures PowerOfTwo(0x80_0000)
    ensures MAX_CATALOG_PLAIN_LEN < CATALOG_HEADER_SIZE + 0x80_0000 * PATH_SLOT_SIZE < U32_LIMIT
  {
    PowersOfTwo();
  }

  lemma PowersOfTwo()
    ensures PowerOfTwo(8 * 1024 * 1024)
  {
    Doubles(1024, 8 * 1024);
    Doubles(8 * 1024, 64 * 1024);
    Doubles(64 * 1024, 512 * 1024);
    Doubles(512 * 1024, 4 * 1024 * 1024);
    assert PowerOfTwo(1024);
  }

  lemma Doubles(n: nat, m: nat)
    requires n > 0 && m == 8 * n
    ensures PowerOfTwo(n) ==> PowerOfTwo(m) && PowerOfTwo(2 * m)
  {
    assert PowerOfTwo(n) ==> PowerOfTwo(2 * n) && PowerOfTwo(4 * n);
  }
}
