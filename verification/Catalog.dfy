/** The catalog: its canonical image, the parser, the validation loops and the accessors. */
module Catalogs {
  import opened Basics
  import opened Wire
  import opened Records
  import opened Tables

  const CATALOG_MAGIC: Bytes := [72, 65, 75, 67, 65, 84, 48, 50]
  const CATALOG_HEADER_SIZE: nat := 64
  const MAX_SEGMENTS: nat := 65535
  const MAX_FILES: nat := 1_000_000
  const MAX_BLOCKS: nat := 10_000_000
  const MAX_PATH_POOL_LEN: nat := 32 * 1024 * 1024
  const EMPTY_PATH_SLOT: nat := 0xFFFF_FFFF
  const BLOCKS_PER_MAP_PAGE: nat := 341
  const REUSE_PER_PAGE: nat := 511
  const REUSE_RECORD_SIZE: nat := 32
  const PAGE_HEADER_SIZE: nat := 16
  /** The smallest largest address of the supported targets. */
  const MIN_WORD_MAX: nat := 0xFFFF_FFFF

  datatype CatalogData = CatalogData(segments: seq<SegmentRecord>, files: seq<FileRecord>, pathSlots: seq<PathSlot>,
                                     pathPool: Bytes, pages: seq<PageRecord>, totalBlocks: nat,
                                     mapPageCount: nat, reusePageCount: nat)
  {
    function FileOffset(): nat {
      CATALOG_HEADER_SIZE + |segments| * SEGMENT_RECORD_SIZE
    }

    function SlotOffset(): nat {
      FileOffset() + |files| * FILE_RECORD_SIZE
    }

    function PoolOffset(): nat {
      SlotOffset() + |pathSlots| * PATH_SLOT_SIZE
    }

    function PageOffset(): nat {
      PoolOffset() + |pathPool|
    }

    function TotalLen(): nat {
      PageOffset() + |pages| * PAGE_RECORD_SIZE
    }
  }

  predicate PowerOfTwo(n: nat) {
    n > 0 && (n == 1 || (n % 2 == 0 && PowerOfTwo(n / 2)))
  }

  function DivCeil(a: nat, b: nat): nat
    requires b > 0
  {
    if a % b == 0 then a / b else a / b + 1
  }

  /** Field widths of every record: what Rust's integer types guarantee. */
  ghost predicate Typed(d: CatalogData) {
    && (forall i :: 0 <= i < |d.segments| ==> SegmentFits(d.segments[i]))
    && (forall i :: 0 <= i < |d.files| ==> FileFits(d.files[i]))
    && (forall i :: 0 <= i < |d.pathSlots| ==> SlotFits(d.pathSlots[i]))
    && (forall i :: 0 <= i < |d.pages| ==> PageFits(d.pages[i]))
    && Fits(d.totalBlocks, 4) && Fits(d.mapPageCount, 4) && Fits(d.reusePageCount, 4)
  }

  /** The limits that printer and parser both check. */
  predicate CountsAccepted(segments: nat, files: nat, totalBlocks: nat, pages: nat, pool: nat, slots: nat,
                           mapPages: nat, reusePages: nat) {
    && segments <= MAX_SEGMENTS && files <= MAX_FILES && totalBlocks <= MAX_BLOCKS
    && pages <= MAX_PAGES && pool <= MAX_PATH_POOL_LEN
    && PowerOfTwo(slots) && mapPages + reusePages == pages
  }

  predicate DataCountsAccepted(d: CatalogData) {
    CountsAccepted(|d.segments|, |d.files|, d.totalBlocks, |d.pages|, |d.pathPool|, |d.pathSlots|, d.mapPageCount,
                   d.reusePageCount)
  }

  // --------------------------------------------------------------- the printer

  function HeaderImage(d: CatalogData): (b: Bytes)
    ensures |b| == CATALOG_HEADER_SIZE
  {
    var b := Put(Zeros(CATALOG_HEADER_SIZE), 0, CATALOG_MAGIC);
    var b := Put(b, 8, Le(FORMAT_MAJOR, 2));
    var b := Put(b, 10, Le(CATALOG_HEADER_SIZE, 2));
    var b := Put(b, 12, Le(|d.segments|, 4));
    var b := Put(b, 16, Le(|d.files|, 4));
    var b := Put(b, 20, Le(d.totalBlocks, 4));
    var b := Put(b, 24, Le(|d.pathPool|, 4));
    var b := Put(b, 28, Le(|d.pathSlots|, 4));
    var b := Put(b, 32, Le(|d.pages|, 4));
    var b := Put(b, 36, Le(d.mapPageCount, 4));
    var b := Put(b, 40, Le(d.reusePageCount, 4));
    var b := Put(b, 44, Le(CATALOG_HEADER_SIZE, 4));
    var b := Put(b, 48, Le(d.FileOffset(), 4));
    var b := Put(b, 52, Le(d.SlotOffset(), 4));
    var b := Put(b, 56, Le(d.PoolOffset(), 4));
    Put(b, 60, Le(d.PageOffset(), 4))
  }

  ghost function SegmentParts(records: seq<SegmentRecord>): (parts: seq<Bytes>)
    requires forall i :: 0 <= i < |records| ==> SegmentFits(records[i])
    ensures |parts| == |records| && Uniform(parts, SEGMENT_RECORD_SIZE)
  {
    seq(|records|, i requires 0 <= i < |records| => EncodeSegment(records[i]))
  }

  ghost function FileParts(records: seq<FileRecord>): (parts: seq<Bytes>)
    ensures |parts| == |records| && Uniform(parts, FILE_RECORD_SIZE)
  {
    seq(|records|, i requires 0 <= i < |records| => EncodeFile(records[i]))
  }

  ghost function SlotParts(records: seq<PathSlot>): (parts: seq<Bytes>)
    ensures |parts| == |records| && Uniform(parts, PATH_SLOT_SIZE)
  {
    seq(|records|, i requires 0 <= i < |records| => EncodeSlot(records[i]))
  }

  ghost function PageParts(records: seq<PageRecord>): (parts: seq<Bytes>)
    requires forall i :: 0 <= i < |records| ==> PageFits(records[i])
    ensures |parts| == |records| && Uniform(parts, PAGE_RECORD_SIZE)
  {
    seq(|records|, i requires 0 <= i < |records| && PageFits(records[i]) => EncodePage(records[i]))
  }

  /** The bytes of a catalog, before any limit is applied. */
  ghost function Image(d: CatalogData): Bytes
    requires Typed(d)
  {
    HeaderImage(d) + Join(SegmentParts(d.segments)) + Join(FileParts(d.files)) + Join(SlotParts(d.pathSlots))
    + d.pathPool + Join(PageParts(d.pages))
  }

  /** What `encode` returns. */
  ghost function Encoded(d: CatalogData): Option<Bytes>
    requires Typed(d)
  {
    if DataCountsAccepted(d) && d.TotalLen() <= MAX_CATALOG_PLAIN_LEN then Some(Image(d)) else None
  }

  method AppendSegments(out: Bytes, records: seq<SegmentRecord>) returns (r: Bytes)
    requires forall i :: 0 <= i < |records| ==> SegmentFits(records[i])
    ensures r == out + Join(SegmentParts(records))
  {
    hide EncodeSegment, EncodeFile, EncodeSlot, EncodePage, Join;
    r := out;
    JoinNone(SegmentParts(records));
    for i := 0 to |records|
      invariant r == out + Join(SegmentParts(records)[..i])
    {
      JoinNext(SegmentParts(records), i);
      r := r + EncodeSegment(records[i]);
    }
    JoinAll(SegmentParts(records));
  }

  method AppendFiles(out: Bytes, records: seq<FileRecord>) returns (r: Bytes)
    ensures r == out + Join(FileParts(records))
  {
    hide EncodeSegment, EncodeFile, EncodeSlot, EncodePage, Join;
    r := out;
    JoinNone(FileParts(records));
    for i := 0 to |records|
      invariant r == out + Join(FileParts(records)[..i])
    {
      JoinNext(FileParts(records), i);
      r := r + EncodeFile(records[i]);
    }
    JoinAll(FileParts(records));
  }

  method AppendSlots(out: Bytes, records: seq<PathSlot>) returns (r: Bytes)
    ensures r == out + Join(SlotParts(records))
  {
    hide EncodeSegment, EncodeFile, EncodeSlot, EncodePage, Join;
    r := out;
    JoinNone(SlotParts(records));
    for i := 0 to |records|
      invariant r == out + Join(SlotParts(records)[..i])
    {
      JoinNext(SlotParts(records), i);
      r := r + EncodeSlot(records[i]);
    }
    JoinAll(SlotParts(records));
  }

  method AppendPages(out: Bytes, records: seq<PageRecord>) returns (r: Bytes)
    requires forall i :: 0 <= i < |records| ==> PageFits(records[i])
    ensures r == out + Join(PageParts(records))
  {
    hide EncodeSegment, EncodeFile, EncodeSlot, EncodePage, Join;
    r := out;
    JoinNone(PageParts(records));
    for i := 0 to |records|
      invariant r == out + Join(PageParts(records)[..i])
    {
      JoinNext(PageParts(records), i);
      r := r + EncodePage(records[i]);
    }
    JoinAll(PageParts(records));
  }

  method Encode(d: CatalogData) returns (r: Option<Bytes>)
    requires Typed(d)
    ensures r == Encoded(d)
  {
    if !DataCountsAccepted(d) || d.TotalLen() > MAX_CATALOG_PLAIN_LEN {
      return None;
    }
    var out := HeaderImage(d);
    out := AppendSegments(out, d.segments);
    out := AppendFiles(out, d.files);
    out := AppendSlots(out, d.pathSlots);
    out := out + d.pathPool;
    out := AppendPages(out, d.pages);
    return Some(out);
  }

  // ---------------------------------------------------------------- the parser

  function CheckedAdd(a: nat, b: nat, wordMax: nat): Option<nat> {
    if a + b <= wordMax then Some(a + b) else None
  }

  function CheckedTableEnd(start: nat, count: nat, size: nat, wordMax: nat): Option<nat> {
    if count * size > wordMax then None else CheckedAdd(start, count * size, wordMax)
  }

  /** The view that `parse` returns, on a target whose largest `usize` is `wordMax`. */
  datatype Catalog = Catalog(wordMax: nat, bytes: Bytes, segmentCount: nat, fileCount: nat, totalBlocks: nat,
                             poolLen: nat, slotCount: nat, pageCount: nat, mapPageCount: nat, reusePageCount: nat,
                             fileOffset: nat, slotOffset: nat, poolOffset: nat, pageOffset: nat)
  {
    function Segment(index: nat): Option<SegmentRecord> {
      if index >= segmentCount then None
      else
        match CheckedTableEnd(CATALOG_HEADER_SIZE, index, SEGMENT_RECORD_SIZE, wordMax)
        case None => None
        case Some(offset) => ParseSegment(bytes, offset)
    }

    function File(index: nat): Option<FileRecord> {
      if index >= fileCount then None
      else
        match CheckedTableEnd(fileOffset, index, FILE_RECORD_SIZE, wordMax)
        case None => None
        case Some(offset) => ParseFile(bytes, offset)
    }

    function Slot(index: nat): Option<PathSlot> {
      if index >= slotCount then None
      else
        match CheckedTableEnd(slotOffset, index, PATH_SLOT_SIZE, wordMax)
        case None => None
        case Some(offset) => ParseSlot(bytes, offset)
    }

    function Page(index: nat): Option<PageRecord> {
      if index >= pageCount then None
      else
        match CheckedTableEnd(pageOffset, index, PAGE_RECORD_SIZE, wordMax)
        case None => None
        case Some(offset) => ParsePage(bytes, offset)
    }

    /** The bytes of a file's path; that they are UTF-8 is part of the `canonical` parameter used below. */
    function Path(index: nat): Option<Bytes> {
      match File(index)
      case None => None
      case Some(file) =>
        match CheckedAdd(poolOffset, file.pathOffset, wordMax)
        case None => None
        case Some(start) =>
          if start + file.pathLen > wordMax || !InRange(bytes, start, file.pathLen) then None
          else Some(bytes[start..start + file.pathLen])
    }
  }

  function ParseHeader(bytes: Bytes, wordMax: nat): Option<Catalog> {
    if |bytes| < CATALOG_HEADER_SIZE || bytes[..8] != CATALOG_MAGIC
       || ReadLe(bytes, 8, 2) != FORMAT_MAJOR || ReadLe(bytes, 10, 2) != CATALOG_HEADER_SIZE
    then None
    else
      var segments, files := ReadLe(bytes, 12, 4), ReadLe(bytes, 16, 4);
      var blocks, pool := ReadLe(bytes, 20, 4), ReadLe(bytes, 24, 4);
      var slots, pages := ReadLe(bytes, 28, 4), ReadLe(bytes, 32, 4);
      var maps, reuses := ReadLe(bytes, 36, 4), ReadLe(bytes, 40, 4);
      if !CountsAccepted(segments, files, blocks, pages, pool, slots, maps, reuses) then None
      else
        var expectedFile := CATALOG_HEADER_SIZE + segments * SEGMENT_RECORD_SIZE;
        var expectedSlots := expectedFile + files * FILE_RECORD_SIZE;
        match CheckedTableEnd(expectedSlots, slots, PATH_SLOT_SIZE, wordMax)
        case None => None
        case Some(expectedPool) =>
          match CheckedAdd(expectedPool, pool, wordMax)
          case None => None
          case Some(expectedPages) =>
            match CheckedTableEnd(expectedPages, pages, PAGE_RECORD_SIZE, wordMax)
            case None => None
            case Some(expectedLen) =>
              if ReadLe(bytes, 44, 4) != CATALOG_HEADER_SIZE || ReadLe(bytes, 48, 4) != expectedFile
                 || ReadLe(bytes, 52, 4) != expectedSlots || ReadLe(bytes, 56, 4) != expectedPool
                 || ReadLe(bytes, 60, 4) != expectedPages || expectedLen != |bytes|
              then None
              else
                Some(Catalog(wordMax, bytes, segments, files, blocks, pool, slots, pages, maps, reuses,
                             expectedFile, expectedSlots, expectedPool, expectedPages))
  }

  // ----------------------------------------------------- cross-record validation

  predicate SegmentOk(r: SegmentRecord) {
    SEGMENT_HEADER_SIZE + r.payloadLen < U64_LIMIT && r.fileLen == SEGMENT_HEADER_SIZE + r.payloadLen
  }

  predicate FileRangesOk(r: FileRecord, poolLen: nat, totalBlocks: nat, wordMax: nat) {
    && r.pathOffset + r.pathLen <= wordMax && r.pathLen != 0 && r.pathOffset + r.pathLen <= poolLen
    && r.firstBlock + r.blockCount < U32_LIMIT && r.firstBlock + r.blockCount <= totalBlocks
  }

  predicate SlotOk(r: PathSlot, fileCount: nat) {
    r.fileIndex == EMPTY_PATH_SLOT || r.fileIndex < fileCount
  }

  predicate PageCountsOk(totalBlocks: nat, mapPages: nat, reusePages: nat) {
    mapPages == DivCeil(totalBlocks, BLOCKS_PER_MAP_PAGE) && reusePages == DivCeil(totalBlocks, REUSE_PER_PAGE)
  }

  /** How many of `total` records page number `local` of this capacity holds. */
  function RecordsOnPage(total: nat, local: nat, capacity: nat): nat {
    var first := local * capacity;
    Min(if first <= total then total - first else 0, capacity)
  }

  predicate PageOk(r: PageRecord, index: nat, mapPages: nat, totalBlocks: nat, start: nat) {
    && r.kind == (if index < mapPages then BlockMap else Reuse)
    && r.nonceOrdinal == index + 1
    && r.relativeOffset == start && start + r.storedLen < U64_LIMIT
    && r.plainLen == PAGE_HEADER_SIZE
                     + (if index < mapPages then RecordsOnPage(totalBlocks, index, BLOCKS_PER_MAP_PAGE) * BLOCK_REF_SIZE
                        else RecordsOnPage(totalBlocks, index - mapPages, REUSE_PER_PAGE) * REUSE_RECORD_SIZE)
  }

  /** Stored bytes of the pages before page `i`. */
  function PageStart(pages: seq<PageRecord>, i: nat): nat
    requires i <= |pages|
  {
    if i == 0 then 0 else PageStart(pages, i - 1) + pages[i - 1].storedLen
  }

  ghost predicate SegmentsValid(c: Catalog) {
    forall i :: 0 <= i < c.segmentCount ==> c.Segment(i).Some? && SegmentOk(c.Segment(i).value)
  }

  ghost predicate FileValid(c: Catalog, i: nat, canonical: Bytes -> bool) {
    && c.File(i).Some? && FileRangesOk(c.File(i).value, c.poolLen, c.totalBlocks, c.wordMax)
    && c.Path(i).Some? && canonical(c.Path(i).value)
  }

  ghost predicate FilesValid(c: Catalog, canonical: Bytes -> bool) {
    forall i :: 0 <= i < c.fileCount ==> FileValid(c, i, canonical)
  }

  ghost predicate SlotsValid(c: Catalog) {
    forall i :: 0 <= i < c.slotCount ==> c.Slot(i).Some? && SlotOk(c.Slot(i).value, c.fileCount)
  }

  /** The first `n` page records as the accessor decodes them. */
  ghost function DecodedPages(c: Catalog, n: nat): (pages: seq<PageRecord>)
    requires forall i :: 0 <= i < n ==> c.Page(i).Some?
    ensures |pages| == n
  {
    seq(n, i requires 0 <= i < n && c.Page(i).Some? => c.Page(i).value)
  }

  ghost predicate PagesReadable(c: Catalog, n: nat) {
    forall i :: 0 <= i < n ==> c.Page(i).Some?
  }

  ghost predicate PagesValid(c: Catalog, n: nat) {
    && PagesReadable(c, n)
    && (forall i :: 0 <= i < n ==>
          PageOk(DecodedPages(c, n)[i], i, c.mapPageCount, c.totalBlocks, PageStart(DecodedPages(c, n), i)))
  }

  ghost predicate RecordsValid(c: Catalog, canonical: Bytes -> bool) {
    && PageCountsOk(c.totalBlocks, c.mapPageCount, c.reusePageCount)
    && SegmentsValid(c) && FilesValid(c, canonical) && SlotsValid(c) && PagesValid(c, c.pageCount)
  }

  /** What `Catalog::parse` accepts. */
  ghost function Parsed(bytes: Bytes, wordMax: nat, canonical: Bytes -> bool): Option<Catalog> {
    match ParseHeader(bytes, wordMax)
    case None => None
    case Some(c) => if RecordsValid(c, canonical) then Some(c) else None
  }

  lemma {:induction false} PageStartPrefix(pages: seq<PageRecord>, longer: seq<PageRecord>, i: nat)
    requires i <= |pages| <= |longer| && longer[..|pages|] == pages
    ensures PageStart(pages, i) == PageStart(longer, i)
  {
    if i > 0 {
      PageStartPrefix(pages, longer, i - 1);
      assert longer[..|pages|][i - 1] == longer[i - 1];
    }
  }

  lemma PagesValidStep(c: Catalog, n: nat)
    requires PagesValid(c, n) && c.Page(n).Some?
    ensures var start := PageStart(DecodedPages(c, n), n);
            && (PageOk(c.Page(n).value, n, c.mapPageCount, c.totalBlocks, start) ==>
                  PagesValid(c, n + 1) && PageStart(DecodedPages(c, n + 1), n + 1) == start + c.Page(n).value.storedLen)
            && (!PageOk(c.Page(n).value, n, c.mapPageCount, c.totalBlocks, start) ==> !PagesValid(c, n + 1))
  {
    var now, next := DecodedPages(c, n), DecodedPages(c, n + 1);
    assert next[..n] == now;
    forall i | 0 <= i <= n
      ensures PageStart(now, i) == PageStart(next, i)
    {
      PageStartPrefix(now, next, i);
    }
    forall i | 0 <= i < n
      ensures PageOk(next[i], i, c.mapPageCount, c.totalBlocks, PageStart(next, i))
    {
      assert next[i] == now[i];
    }
  }

  lemma PagesValidMonotone(c: Catalog, n: nat, m: nat)
    requires n <= m && PagesValid(c, m)
    ensures PagesValid(c, n)
  {
    var now, next := DecodedPages(c, n), DecodedPages(c, m);
    assert next[..n] == now;
    forall i | 0 <= i < n
      ensures PageOk(now[i], i, c.mapPageCount, c.totalBlocks, PageStart(now, i))
    {
      assert now[i] == next[i];
      PageStartPrefix(now, next, i);
    }
  }

  /** The validation loops decide exactly `RecordsValid`. */
  method ValidateRecords(c: Catalog, canonical: Bytes -> bool) returns (ok: bool)
    ensures ok <==> RecordsValid(c, canonical)
  {
    if !PageCountsOk(c.totalBlocks, c.mapPageCount, c.reusePageCount) {
      return false;
    }
    for i := 0 to c.segmentCount
      invariant forall j :: 0 <= j < i ==> c.Segment(j).Some? && SegmentOk(c.Segment(j).value)
    {
      if c.Segment(i).None? || !SegmentOk(c.Segment(i).value) {
        return false;
      }
    }
    for i := 0 to c.fileCount
      invariant forall j :: 0 <= j < i ==> FileValid(c, j, canonical)
    {
      if c.File(i).None? || !FileRangesOk(c.File(i).value, c.poolLen, c.totalBlocks, c.wordMax)
         || c.Path(i).None? || !canonical(c.Path(i).value)
      {
        assert !FileValid(c, i, canonical);
        return false;
      }
    }
    for i := 0 to c.slotCount
      invariant forall j :: 0 <= j < i ==> c.Slot(j).Some? && SlotOk(c.Slot(j).value, c.fileCount)
    {
      if c.Slot(i).None? || !SlotOk(c.Slot(i).value, c.fileCount) {
        return false;
      }
    }
    ok := ValidatePages(c);
  }

  method ValidatePages(c: Catalog) returns (ok: bool)
    ensures ok <==> PagesValid(c, c.pageCount)
  {
    var start := 0;
    for i := 0 to c.pageCount
      invariant PagesValid(c, i) && start == PageStart(DecodedPages(c, i), i)
    {
      if c.Page(i).None? {
        assert !PagesReadable(c, c.pageCount);
        return false;
      }
      PagesValidStep(c, i);
      if !PageOk(c.Page(i).value, i, c.mapPageCount, c.totalBlocks, start) {
        if PagesValid(c, c.pageCount) {
          PagesValidMonotone(c, i + 1, c.pageCount);
        }
        return false;
      }
      start := start + c.Page(i).value.storedLen;
    }
    return true;
  }

  method Parse(bytes: Bytes, wordMax: nat, canonical: Bytes -> bool) returns (r: Option<Catalog>)
    ensures r == Parsed(bytes, wordMax, canonical)
  {
    r := ParseHeader(bytes, wordMax);
    if r.Some? {
      var ok := ValidateRecords(r.value, canonical);
      if !ok {
        return None;
      }
    }
  }
}
