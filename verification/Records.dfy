/** The fixed-size records: what each field encodes to, what the parsers accept, and that one undoes the other. */
module Records {
  import opened Basics
  import opened Wire

  datatype Codec = Raw | Zstd
  datatype Availability = Required | Deferred
  datatype Layout = Fixed | ContentDefined
  datatype Access = Hot | Normal | Streaming | Transient
  datatype PageKind = BlockMap | Reuse

  const SEGMENT_HEADER_SIZE: nat := 128
  const SEGMENT_RECORD_SIZE: nat := 96
  const FILE_RECORD_SIZE: nat := 32
  const PATH_SLOT_SIZE: nat := 8
  const PAGE_RECORD_SIZE: nat := 64
  const BLOCK_REF_SIZE: nat := 48
  const MAX_PAGE_PLAIN_LEN: nat := 1024 * 1024
  const MAX_BLOCK_PLAIN_LEN: nat := 1024 * 1024
  const TAG_SIZE: nat := 16

  function CodecByte(c: Codec): Byte {
    match c case Raw => 0 case Zstd => 1
  }

  function ParseCodec(b: Byte): Option<Codec> {
    if b == 0 then Some(Raw) else if b == 1 then Some(Zstd) else None
  }

  function AvailabilityByte(a: Availability): Byte {
    match a case Required => 0 case Deferred => 1
  }

  function ParseAvailability(b: Byte): Option<Availability> {
    if b == 0 then Some(Required) else if b == 1 then Some(Deferred) else None
  }

  function LayoutByte(l: Layout): Byte {
    match l case Fixed => 0 case ContentDefined => 1
  }

  function ParseLayout(b: Byte): Option<Layout> {
    if b == 0 then Some(Fixed) else if b == 1 then Some(ContentDefined) else None
  }

  function AccessByte(a: Access): Byte {
    match a case Hot => 0 case Normal => 1 case Streaming => 2 case Transient => 3
  }

  function ParseAccess(b: Byte): Option<Access> {
    if b == 0 then Some(Hot) else if b == 1 then Some(Normal)
    else if b == 2 then Some(Streaming) else if b == 3 then Some(Transient) else None
  }

  function KindByte(k: PageKind): Byte {
    match k case BlockMap => 1 case Reuse => 2
  }

  function ParseKind(b: Byte): Option<PageKind> {
    if b == 1 then Some(BlockMap) else if b == 2 then Some(Reuse) else None
  }

  /** RAW stores plaintext plus tag; zstd must be strictly smaller than that. */
  predicate CanonicalLength(codec: Codec, storedLen: nat, plainLen: nat) {
    match codec
    case Raw => storedLen == plainLen + TAG_SIZE
    case Zstd => TAG_SIZE <= storedLen < plainLen + TAG_SIZE
  }

  // ------------------------------------------------------------ segment record

  datatype SegmentRecord = SegmentRecord(id: Bytes, uid: Bytes, salt: Bytes, noncePrefix: Bytes,
                                         fileLen: nat, payloadLen: nat, blockCount: nat, availability: Availability)

  predicate SegmentFits(r: SegmentRecord) {
    && |r.id| == 32 && |r.uid| == 16 && |r.salt| == 16 && |r.noncePrefix| == 8
    && Fits(r.fileLen, 8) && Fits(r.payloadLen, 8) && Fits(r.blockCount, 4)
  }

  function EncodeSegment(r: SegmentRecord): (b: Bytes)
    requires SegmentFits(r)
    ensures |b| == SEGMENT_RECORD_SIZE
  {
    var b := Put(Zeros(SEGMENT_RECORD_SIZE), 0, r.id);
    var b := Put(b, 32, r.uid);
    var b := Put(b, 48, r.salt);
    var b := Put(b, 64, r.noncePrefix);
    var b := Put(b, 72, Le(r.fileLen, 8));
    var b := Put(b, 80, Le(r.payloadLen, 8));
    var b := Put(b, 88, Le(r.blockCount, 4));
    Put(b, 92, [AvailabilityByte(r.availability)])
  }

  function ParseSegment(bytes: Bytes, offset: nat): Option<SegmentRecord> {
    if !InRange(bytes, offset, SEGMENT_RECORD_SIZE) then None
    else
      var record := bytes[offset..offset + SEGMENT_RECORD_SIZE];
      if !AllZero(record[93..96]) || ParseAvailability(record[92]).None? then None
      else
        Some(SegmentRecord(record[0..32], record[32..48], record[48..64], record[64..72],
                           ReadLe(record, 72, 8), ReadLe(record, 80, 8), ReadLe(record, 88, 4),
                           ParseAvailability(record[92]).value))
  }

  lemma SegmentRoundTrip(bytes: Bytes, offset: nat, r: SegmentRecord)
    requires SegmentFits(r) && InRange(bytes, offset, SEGMENT_RECORD_SIZE)
    requires bytes[offset..offset + SEGMENT_RECORD_SIZE] == EncodeSegment(r)
    ensures ParseSegment(bytes, offset) == Some(r)
  {
    hide Le, UnLe, Pow256, Zeros;
    var record := EncodeSegment(r);
    assert record[0..32] == r.id;
    assert record[32..48] == r.uid;
    assert record[48..64] == r.salt;
    assert record[64..72] == r.noncePrefix;
    ReadsNumber(record, 72, r.fileLen, 8);
    ReadsNumber(record, 80, r.payloadLen, 8);
    ReadsNumber(record, 88, r.blockCount, 4);
  }

  lemma SegmentParseExact(bytes: Bytes, offset: nat)
    requires ParseSegment(bytes, offset).Some?
    ensures var r := ParseSegment(bytes, offset).value;
            SegmentFits(r) && bytes[offset..offset + SEGMENT_RECORD_SIZE] == EncodeSegment(r)
  {
    hide Le, UnLe, Pow256, Zeros;
    var r := ParseSegment(bytes, offset).value;
    var record := bytes[offset..offset + SEGMENT_RECORD_SIZE];
    WritesNumber(record, 72, 8);
    WritesNumber(record, 80, 8);
    WritesNumber(record, 88, 4);
    forall i | 0 <= i < SEGMENT_RECORD_SIZE
      ensures EncodeSegment(r)[i] == record[i]
    {
      if i >= 93 {
        assert record[93..96][i - 93] == 0;
      }
    }
  }

  // --------------------------------------------------------------- file record

  datatype FileRecord = FileRecord(pathOffset: nat, pathLen: nat, layout: Layout, access: Access,
                                   logicalLen: nat, firstBlock: nat, blockCount: nat, fixedBlockLen: nat)

  predicate FileFits(r: FileRecord) {
    && Fits(r.pathOffset, 4) && Fits(r.pathLen, 2) && Fits(r.logicalLen, 8)
    && Fits(r.firstBlock, 4) && Fits(r.blockCount, 4) && Fits(r.fixedBlockLen, 4)
  }

  /** The layout rule that the parser checks and the encoder does not. */
  predicate LayoutConsistent(r: FileRecord) {
    && (r.layout == Fixed && r.logicalLen > 0 ==> r.fixedBlockLen != 0)
    && (r.layout == ContentDefined ==> r.fixedBlockLen == 0)
  }

  function EncodeFile(r: FileRecord): (b: Bytes)
    ensures |b| == FILE_RECORD_SIZE
  {
    var b := Put(Zeros(FILE_RECORD_SIZE), 0, Le(r.pathOffset, 4));
    var b := Put(b, 4, Le(r.pathLen, 2));
    var b := Put(b, 6, [LayoutByte(r.layout)]);
    var b := Put(b, 7, [AccessByte(r.access)]);
    var b := Put(b, 8, Le(r.logicalLen, 8));
    var b := Put(b, 16, Le(r.firstBlock, 4));
    var b := Put(b, 20, Le(r.blockCount, 4));
    Put(b, 24, Le(r.fixedBlockLen, 4))
  }

  function ParseFile(bytes: Bytes, offset: nat): Option<FileRecord> {
    if !InRange(bytes, offset, FILE_RECORD_SIZE) then None
    else
      var record := bytes[offset..offset + FILE_RECORD_SIZE];
      if !AllZero(record[28..32]) || ParseLayout(record[6]).None? || ParseAccess(record[7]).None? then None
      else
        var r := FileRecord(ReadLe(record, 0, 4), ReadLe(record, 4, 2), ParseLayout(record[6]).value,
                            ParseAccess(record[7]).value, ReadLe(record, 8, 8), ReadLe(record, 16, 4),
                            ReadLe(record, 20, 4), ReadLe(record, 24, 4));
        if LayoutConsistent(r) then Some(r) else None
  }

  lemma FileReadsPath(r: FileRecord)
    requires FileFits(r)
    ensures var b := EncodeFile(r);
            && ReadLe(b, 0, 4) == r.pathOffset && ReadLe(b, 4, 2) == r.pathLen
            && b[6] == LayoutByte(r.layout) && b[7] == AccessByte(r.access) && ReadLe(b, 8, 8) == r.logicalLen
  {
    hide Le, UnLe, Pow256, Zeros;
    var b := EncodeFile(r);
    ReadsNumber(b, 0, r.pathOffset, 4);
    ReadsNumber(b, 4, r.pathLen, 2);
    ReadsNumber(b, 8, r.logicalLen, 8);
  }

  lemma FileReadsBlocks(r: FileRecord)
    requires FileFits(r)
    ensures var b := EncodeFile(r);
            && ReadLe(b, 16, 4) == r.firstBlock && ReadLe(b, 20, 4) == r.blockCount
            && ReadLe(b, 24, 4) == r.fixedBlockLen && AllZero(b[28..32])
  {
    hide Le, UnLe, Pow256, Zeros;
    var b := EncodeFile(r);
    ReadsNumber(b, 16, r.firstBlock, 4);
    ReadsNumber(b, 20, r.blockCount, 4);
    ReadsNumber(b, 24, r.fixedBlockLen, 4);
    ReadsReserved(b, 28, 32);
  }

  lemma FileRoundTrip(bytes: Bytes, offset: nat, r: FileRecord)
    requires FileFits(r) && InRange(bytes, offset, FILE_RECORD_SIZE)
    requires bytes[offset..offset + FILE_RECORD_SIZE] == EncodeFile(r)
    ensures ParseFile(bytes, offset) == if LayoutConsistent(r) then Some(r) else None
  {
    hide EncodeFile, ReadLe, Fits, AllZero;
    FileReadsPath(r);
    FileReadsBlocks(r);
  }

  lemma FileParseExact(bytes: Bytes, offset: nat)
    requires ParseFile(bytes, offset).Some?
    ensures var r := ParseFile(bytes, offset).value;
            FileFits(r) && LayoutConsistent(r) && bytes[offset..offset + FILE_RECORD_SIZE] == EncodeFile(r)
  {
    hide Le, UnLe, Pow256, Zeros;
    var r := ParseFile(bytes, offset).value;
    var record := bytes[offset..offset + FILE_RECORD_SIZE];
    WritesNumber(record, 0, 4);
    WritesNumber(record, 4, 2);
    WritesNumber(record, 8, 8);
    WritesNumber(record, 16, 4);
    WritesNumber(record, 20, 4);
    WritesNumber(record, 24, 4);
    forall i | 0 <= i < FILE_RECORD_SIZE
      ensures EncodeFile(r)[i] == record[i]
    {
      if i >= 28 {
        assert record[28..32][i - 28] == 0;
      }
    }
  }

  // ----------------------------------------------------------------- path slot

  datatype PathSlot = PathSlot(hash: nat, fileIndex: nat)

  predicate SlotFits(r: PathSlot) {
    Fits(r.hash, 4) && Fits(r.fileIndex, 4)
  }

  function EncodeSlot(r: PathSlot): (b: Bytes)
    ensures |b| == PATH_SLOT_SIZE
  {
    Put(Put(Zeros(PATH_SLOT_SIZE), 0, Le(r.hash, 4)), 4, Le(r.fileIndex, 4))
  }

  function ParseSlot(bytes: Bytes, offset: nat): Option<PathSlot> {
    if !InRange(bytes, offset, PATH_SLOT_SIZE) then None
    else
      var record := bytes[offset..offset + PATH_SLOT_SIZE];
      Some(PathSlot(ReadLe(record, 0, 4), ReadLe(record, 4, 4)))
  }

  lemma SlotRoundTrip(bytes: Bytes, offset: nat, r: PathSlot)
    requires SlotFits(r) && InRange(bytes, offset, PATH_SLOT_SIZE)
    requires bytes[offset..offset + PATH_SLOT_SIZE] == EncodeSlot(r)
    ensures ParseSlot(bytes, offset) == Some(r)
  {
    hide Le, UnLe, Pow256, Zeros;
    ReadsNumber(EncodeSlot(r), 0, r.hash, 4);
    ReadsNumber(EncodeSlot(r), 4, r.fileIndex, 4);
  }

  lemma SlotParseExact(bytes: Bytes, offset: nat)
    requires ParseSlot(bytes, offset).Some?
    ensures var r := ParseSlot(bytes, offset).value;
            SlotFits(r) && bytes[offset..offset + PATH_SLOT_SIZE] == EncodeSlot(r)
  {
    hide Le, UnLe, Pow256, Zeros;
    var record := bytes[offset..offset + PATH_SLOT_SIZE];
    WritesNumber(record, 0, 4);
    WritesNumber(record, 4, 4);
    assert record == EncodeSlot(ParseSlot(bytes, offset).value);
  }

  // --------------------------------------------------------------- page record

  datatype PageRecord = PageRecord(kind: PageKind, codec: Codec, nonceOrdinal: nat, relativeOffset: nat,
                                   storedLen: nat, plainLen: nat, digest: Bytes)

  predicate PageFits(r: PageRecord) {
    && Fits(r.nonceOrdinal, 4) && Fits(r.relativeOffset, 8) && Fits(r.storedLen, 4) && Fits(r.plainLen, 4)
    && |r.digest| == 32
  }

  predicate PageLengthsCanonical(r: PageRecord) {
    0 < r.plainLen <= MAX_PAGE_PLAIN_LEN && CanonicalLength(r.codec, r.storedLen, r.plainLen)
  }

  function EncodePage(r: PageRecord): (b: Bytes)
    requires |r.digest| == 32
    ensures |b| == PAGE_RECORD_SIZE
  {
    var b := Put(Zeros(PAGE_RECORD_SIZE), 0, [KindByte(r.kind)]);
    var b := Put(b, 1, [CodecByte(r.codec)]);
    var b := Put(b, 4, Le(r.nonceOrdinal, 4));
    var b := Put(b, 8, Le(r.relativeOffset, 8));
    var b := Put(b, 16, Le(r.storedLen, 4));
    var b := Put(b, 20, Le(r.plainLen, 4));
    Put(b, 24, r.digest)
  }

  function ParsePage(bytes: Bytes, offset: nat): Option<PageRecord> {
    if !InRange(bytes, offset, PAGE_RECORD_SIZE) then None
    else
      var record := bytes[offset..offset + PAGE_RECORD_SIZE];
      if !AllZero(record[2..4]) || !AllZero(record[56..64]) || ParseCodec(record[1]).None? then None
      else
        var storedLen, plainLen := ReadLe(record, 16, 4), ReadLe(record, 20, 4);
        if storedLen < TAG_SIZE || plainLen == 0 || plainLen > MAX_PAGE_PLAIN_LEN
           || !CanonicalLength(ParseCodec(record[1]).value, storedLen, plainLen) || ParseKind(record[0]).None?
        then None
        else
          Some(PageRecord(ParseKind(record[0]).value, ParseCodec(record[1]).value, ReadLe(record, 4, 4),
                          ReadLe(record, 8, 8), storedLen, plainLen, record[24..56]))
  }

  lemma PageRoundTrip(bytes: Bytes, offset: nat, r: PageRecord)
    requires PageFits(r) && InRange(bytes, offset, PAGE_RECORD_SIZE)
    requires bytes[offset..offset + PAGE_RECORD_SIZE] == EncodePage(r)
    ensures ParsePage(bytes, offset) == if PageLengthsCanonical(r) then Some(r) else None
  {
    hide Le, UnLe, Pow256, Zeros;
    var record := EncodePage(r);
    ReadsNumber(record, 4, r.nonceOrdinal, 4);
    ReadsNumber(record, 8, r.relativeOffset, 8);
    ReadsNumber(record, 16, r.storedLen, 4);
    ReadsNumber(record, 20, r.plainLen, 4);
    assert record[24..56] == r.digest;
  }

  lemma PageParseExact(bytes: Bytes, offset: nat)
    requires ParsePage(bytes, offset).Some?
    ensures var r := ParsePage(bytes, offset).value;
            PageFits(r) && PageLengthsCanonical(r) && bytes[offset..offset + PAGE_RECORD_SIZE] == EncodePage(r)
  {
    hide Le, UnLe, Pow256, Zeros;
    var r := ParsePage(bytes, offset).value;
    var record := bytes[offset..offset + PAGE_RECORD_SIZE];
    WritesNumber(record, 4, 4);
    WritesNumber(record, 8, 8);
    WritesNumber(record, 16, 4);
    WritesNumber(record, 20, 4);
    forall i | 0 <= i < PAGE_RECORD_SIZE
      ensures EncodePage(r)[i] == record[i]
    {
      if 2 <= i < 4 {
        assert record[2..4][i - 2] == 0;
      } else if i >= 56 {
        assert record[56..64][i - 56] == 0;
      }
    }
  }

  // ----------------------------------------------------------- block reference

  datatype BlockRef = BlockRef(logicalOffset: nat, segmentOrdinal: nat, segmentBlockOrdinal: nat,
                               physicalOffset: nat, storedLen: nat, plainLen: nat, codec: Codec, cipherDigest: Bytes)

  predicate BlockFits(r: BlockRef) {
    && Fits(r.logicalOffset, 8) && Fits(r.segmentOrdinal, 2) && Fits(r.segmentBlockOrdinal, 4)
    && Fits(r.physicalOffset, 8) && Fits(r.storedLen, 4) && Fits(r.plainLen, 4) && |r.cipherDigest| == 16
  }

  predicate BlockLengthsCanonical(r: BlockRef) {
    0 < r.plainLen <= MAX_BLOCK_PLAIN_LEN && CanonicalLength(r.codec, r.storedLen, r.plainLen)
  }

  function EncodeBlock(r: BlockRef): (b: Bytes)
    requires |r.cipherDigest| == 16
    ensures |b| == BLOCK_REF_SIZE
  {
    var b := Put(Zeros(BLOCK_REF_SIZE), 0, Le(r.logicalOffset, 8));
    var b := Put(b, 8, Le(r.segmentOrdinal, 2));
    var b := Put(b, 10, Le(r.segmentBlockOrdinal, 4));
    var b := Put(b, 14, Le(r.physicalOffset, 8));
    var b := Put(b, 22, Le(r.storedLen, 4));
    var b := Put(b, 26, Le(r.plainLen, 4));
    var b := Put(b, 30, [CodecByte(r.codec)]);
    Put(b, 32, r.cipherDigest)
  }

  function ParseBlock(bytes: Bytes, offset: nat): Option<BlockRef> {
    if !InRange(bytes, offset, BLOCK_REF_SIZE) then None
    else
      var record := bytes[offset..offset + BLOCK_REF_SIZE];
      if record[31] != 0 || ParseCodec(record[30]).None? then None
      else
        var r := BlockRef(ReadLe(record, 0, 8), ReadLe(record, 8, 2), ReadLe(record, 10, 4), ReadLe(record, 14, 8),
                          ReadLe(record, 22, 4), ReadLe(record, 26, 4), ParseCodec(record[30]).value, record[32..48]);
        if BlockLengthsCanonical(r) then Some(r) else None
  }

  lemma BlockReadsPlacement(r: BlockRef)
    requires BlockFits(r)
    ensures var b := EncodeBlock(r);
            && ReadLe(b, 0, 8) == r.logicalOffset && ReadLe(b, 8, 2) == r.segmentOrdinal
            && ReadLe(b, 10, 4) == r.segmentBlockOrdinal && ReadLe(b, 14, 8) == r.physicalOffset
  {
    hide Le, UnLe, Pow256, Zeros;
    var b := EncodeBlock(r);
    ReadsNumber(b, 0, r.logicalOffset, 8);
    ReadsNumber(b, 8, r.segmentOrdinal, 2);
    ReadsNumber(b, 10, r.segmentBlockOrdinal, 4);
    ReadsNumber(b, 14, r.physicalOffset, 8);
  }

  lemma BlockReadsLengths(r: BlockRef)
    requires BlockFits(r)
    ensures var b := EncodeBlock(r);
            && ReadLe(b, 22, 4) == r.storedLen && ReadLe(b, 26, 4) == r.plainLen
            && b[30] == CodecByte(r.codec) && b[31] == 0 && b[32..48] == r.cipherDigest
  {
    hide Le, UnLe, Pow256, Zeros;
    var b := EncodeBlock(r);
    ReadsNumber(b, 22, r.storedLen, 4);
    ReadsNumber(b, 26, r.plainLen, 4);
  }

  lemma BlockRoundTrip(bytes: Bytes, offset: nat, r: BlockRef)
    requires BlockFits(r) && InRange(bytes, offset, BLOCK_REF_SIZE)
    requires bytes[offset..offset + BLOCK_REF_SIZE] == EncodeBlock(r)
    ensures ParseBlock(bytes, offset) == if BlockLengthsCanonical(r) then Some(r) else None
  {
    hide EncodeBlock, ReadLe, Fits;
    BlockReadsPlacement(r);
    BlockReadsLengths(r);
  }

  lemma BlockParseExact(bytes: Bytes, offset: nat)
    requires ParseBlock(bytes, offset).Some?
    ensures var r := ParseBlock(bytes, offset).value;
            BlockFits(r) && BlockLengthsCanonical(r) && bytes[offset..offset + BLOCK_REF_SIZE] == EncodeBlock(r)
  {
    hide Le, UnLe, Pow256, Zeros;
    var r := ParseBlock(bytes, offset).value;
    var record := bytes[offset..offset + BLOCK_REF_SIZE];
    WritesNumber(record, 0, 8);
    WritesNumber(record, 8, 2);
    WritesNumber(record, 10, 4);
    WritesNumber(record, 14, 8);
    WritesNumber(record, 22, 4);
    WritesNumber(record, 26, 4);
    forall i | 0 <= i < BLOCK_REF_SIZE
      ensures EncodeBlock(r)[i] == record[i]
    {
    }
  }

  // ------------------------------------------------------------------- headers

  const SEGMENT_MAGIC: Bytes := [72, 65, 75, 83, 69, 71, 48, 50]
  const SNAPSHOT_MAGIC: Bytes := [72, 65, 75, 85, 48, 48, 48, 50]
  const FORMAT_MAJOR: nat := 2
  const FORMAT_MINOR: nat := 0
  const SNAPSHOT_HEADER_SIZE: nat := 256
  const MAX_CATALOG_PLAIN_LEN: nat := 64 * 1024 * 1024
  const MAX_CATALOG_STORED_LEN: nat := MAX_CATALOG_PLAIN_LEN + 1024 * 1024 + 16
  const MAX_PAGES: nat := 100_000

  datatype SegmentHeader = SegmentHeader(projectId: Bytes, uid: Bytes, salt: Bytes, noncePrefix: Bytes,
                                         blockCount: nat, payloadLen: nat, fileLen: nat)

  predicate SegmentHeaderFits(h: SegmentHeader) {
    && |h.projectId| == 16 && |h.uid| == 16 && |h.salt| == 16 && |h.noncePrefix| == 8
    && Fits(h.blockCount, 4) && Fits(h.payloadLen, 8) && Fits(h.fileLen, 8)
  }

  function EncodeSegmentHeader(h: SegmentHeader): (b: Bytes)
    requires SegmentHeaderFits(h)
    ensures |b| == SEGMENT_HEADER_SIZE
  {
    var b := Put(Zeros(SEGMENT_HEADER_SIZE), 0, SEGMENT_MAGIC);
    var b := Put(b, 8, Le(FORMAT_MAJOR, 2));
    var b := Put(b, 10, Le(FORMAT_MINOR, 2));
    var b := Put(b, 12, Le(SEGMENT_HEADER_SIZE, 4));
    var b := Put(b, 16, h.projectId);
    var b := Put(b, 32, h.uid);
    var b := Put(b, 48, h.salt);
    var b := Put(b, 64, h.noncePrefix);
    var b := Put(b, 72, Le(h.blockCount, 4));
    var b := Put(b, 80, Le(h.payloadLen, 8));
    Put(b, 88, Le(h.fileLen, 8))
  }

  function ParseSegmentHeader(bytes: Bytes): Option<SegmentHeader> {
    if |bytes| < SEGMENT_HEADER_SIZE || bytes[..8] != SEGMENT_MAGIC
       || ReadLe(bytes, 8, 2) != FORMAT_MAJOR || ReadLe(bytes, 10, 2) != FORMAT_MINOR
       || ReadLe(bytes, 12, 4) != SEGMENT_HEADER_SIZE
       || !AllZero(bytes[76..80]) || !AllZero(bytes[96..SEGMENT_HEADER_SIZE])
    then None
    else
      var payloadLen, fileLen := ReadLe(bytes, 80, 8), ReadLe(bytes, 88, 8);
      if SEGMENT_HEADER_SIZE + payloadLen >= U64_LIMIT || fileLen != SEGMENT_HEADER_SIZE + payloadLen then None
      else
        Some(SegmentHeader(bytes[16..32], bytes[32..48], bytes[48..64], bytes[64..72], ReadLe(bytes, 72, 4), payloadLen,
                           fileLen))
  }

  /** A segment header parses back exactly when its file length is header plus payload. */
  lemma SegmentHeaderRoundTrip(h: SegmentHeader)
    requires SegmentHeaderFits(h)
    ensures ParseSegmentHeader(EncodeSegmentHeader(h))
            == if h.fileLen == SEGMENT_HEADER_SIZE + h.payloadLen then Some(h) else None
  {
    hide Le, UnLe, Pow256, Zeros;
    var b := EncodeSegmentHeader(h);
    WordSizes();
    ReadsNumber(b, 8, FORMAT_MAJOR, 2);
    ReadsNumber(b, 10, FORMAT_MINOR, 2);
    ReadsNumber(b, 12, SEGMENT_HEADER_SIZE, 4);
    ReadsNumber(b, 72, h.blockCount, 4);
    ReadsNumber(b, 80, h.payloadLen, 8);
    ReadsNumber(b, 88, h.fileLen, 8);
    SegmentHeaderArrays(h);
    SegmentHeaderSalts(h);
    SegmentHeaderReserved(h);
  }

  /** An accepted segment header is the encoding of what it parses to. */
  lemma SegmentHeaderParseExact(bytes: Bytes)
    requires ParseSegmentHeader(bytes).Some?
    ensures var h := ParseSegmentHeader(bytes).value;
            SegmentHeaderFits(h) && bytes[..SEGMENT_HEADER_SIZE] == EncodeSegmentHeader(h)
  {
    hide Le, UnLe, Pow256, Zeros;
    var h := ParseSegmentHeader(bytes).value;
    WritesNumber(bytes, 8, 2);
    WritesNumber(bytes, 10, 2);
    WritesNumber(bytes, 12, 4);
    WritesNumber(bytes, 72, 4);
    WritesNumber(bytes, 80, 8);
    WritesNumber(bytes, 88, 8);
    forall i | 0 <= i < SEGMENT_HEADER_SIZE
      ensures EncodeSegmentHeader(h)[i] == bytes[i]
    {
      if i < 8 {
        assert bytes[..8][i] == SEGMENT_MAGIC[i];
      } else if 76 <= i < 80 {
        assert bytes[76..80][i - 76] == 0;
      } else if i >= 96 {
        assert bytes[96..SEGMENT_HEADER_SIZE][i - 96] == 0;
      }
    }
  }

  lemma SegmentHeaderArrays(h: SegmentHeader)
    requires SegmentHeaderFits(h)
    ensures var b := EncodeSegmentHeader(h);
            b[..8] == SEGMENT_MAGIC && b[16..32] == h.projectId && b[32..48] == h.uid
  {
    hide Le, UnLe, Pow256, Zeros;
    var b := EncodeSegmentHeader(h);
    ReadsArray(b, 0, SEGMENT_MAGIC);
    assert b[..8] == b[0..0 + 8];
    ReadsArray(b, 16, h.projectId);
    ReadsArray(b, 32, h.uid);
  }

  lemma SegmentHeaderSalts(h: SegmentHeader)
    requires SegmentHeaderFits(h)
    ensures var b := EncodeSegmentHeader(h); b[48..64] == h.salt && b[64..72] == h.noncePrefix
  {
    hide Le, UnLe, Pow256, Zeros;
    var b := EncodeSegmentHeader(h);
    ReadsArray(b, 48, h.salt);
    ReadsArray(b, 64, h.noncePrefix);
  }

  lemma SegmentHeaderReserved(h: SegmentHeader)
    requires SegmentHeaderFits(h)
    ensures var b := EncodeSegmentHeader(h); AllZero(b[76..80]) && AllZero(b[96..SEGMENT_HEADER_SIZE])
  {
    hide Le, UnLe, Pow256;
    var b := EncodeSegmentHeader(h);
    ReadsReserved(b, 76, 80);
    ReadsReserved(b, 96, SEGMENT_HEADER_SIZE);
  }

  datatype SnapshotHeader = SnapshotHeader(projectId: Bytes, releaseSequence: nat, catalogStoredLen: nat,
                                           catalogPlainLen: nat, pageRegionOffset: nat, pageCount: nat,
                                           snapshotSalt: Bytes, noncePrefix: Bytes,
                                           signingKeyId: Bytes, sourceFingerprint: Bytes, signature: Bytes)

  predicate SnapshotHeaderFits(h: SnapshotHeader) {
    && |h.projectId| == 16 && |h.snapshotSalt| == 16 && |h.noncePrefix| == 8 && |h.signingKeyId| == 16
    && |h.sourceFingerprint| == 32 && |h.signature| == 64
    && Fits(h.releaseSequence, 8) && Fits(h.catalogStoredLen, 8) && Fits(h.catalogPlainLen, 8)
    && Fits(h.pageRegionOffset, 8) && Fits(h.pageCount, 4)
  }

  predicate SnapshotHeaderAccepted(h: SnapshotHeader) {
    && 16 <= h.catalogStoredLen <= MAX_CATALOG_STORED_LEN
    && 0 < h.catalogPlainLen <= MAX_CATALOG_PLAIN_LEN
    && h.pageRegionOffset == SNAPSHOT_HEADER_SIZE + h.catalogStoredLen
    && h.pageCount <= MAX_PAGES
  }

  function SnapshotHeaderNumbers(h: SnapshotHeader): (b: Bytes)
    requires SnapshotHeaderFits(h)
    ensures |b| == SNAPSHOT_HEADER_SIZE && forall i :: 76 <= i < SNAPSHOT_HEADER_SIZE ==> b[i] == 0
  {
    hide Le, Zeros, Fits;
    var b := Put(Zeros(SNAPSHOT_HEADER_SIZE), 0, SNAPSHOT_MAGIC);
    var b := Put(b, 8, Le(FORMAT_MAJOR, 2));
    var b := Put(b, 10, Le(FORMAT_MINOR, 2));
    var b := Put(b, 12, Le(SNAPSHOT_HEADER_SIZE, 4));
    var b := Put(b, 16, h.projectId);
    var b := Put(b, 32, Le(h.releaseSequence, 8));
    var b := Put(b, 40, Le(SNAPSHOT_HEADER_SIZE, 8));
    var b := Put(b, 48, Le(h.catalogStoredLen, 8));
    var b := Put(b, 56, Le(h.catalogPlainLen, 8));
    var b := Put(b, 64, Le(h.pageRegionOffset, 8));
    Put(b, 72, Le(h.pageCount, 4))
  }

  function UnsignedSnapshotHeader(h: SnapshotHeader): (b: Bytes)
    requires SnapshotHeaderFits(h)
    ensures |b| == SNAPSHOT_HEADER_SIZE && forall i :: 152 <= i < SNAPSHOT_HEADER_SIZE ==> b[i] == 0
  {
    hide SnapshotHeaderNumbers, Fits;
    var b := Put(SnapshotHeaderNumbers(h), 80, h.snapshotSalt);
    var b := Put(b, 96, h.noncePrefix);
    var b := Put(b, 104, h.signingKeyId);
    Put(b, 120, h.sourceFingerprint)
  }

  function EncodeSnapshotHeader(h: SnapshotHeader, zeroSignature: bool): (b: Bytes)
    requires SnapshotHeaderFits(h)
    ensures |b| == SNAPSHOT_HEADER_SIZE
  {
    var b := UnsignedSnapshotHeader(h);
    if zeroSignature then b else Put(b, 152, h.signature)
  }

  function ParseSnapshotHeader(bytes: Bytes): Option<SnapshotHeader> {
    if |bytes| < SNAPSHOT_HEADER_SIZE || bytes[..8] != SNAPSHOT_MAGIC
       || ReadLe(bytes, 8, 2) != FORMAT_MAJOR || ReadLe(bytes, 10, 2) != FORMAT_MINOR
       || ReadLe(bytes, 12, 4) != SNAPSHOT_HEADER_SIZE || ReadLe(bytes, 40, 8) != SNAPSHOT_HEADER_SIZE
       || !AllZero(bytes[76..80]) || !AllZero(bytes[216..SNAPSHOT_HEADER_SIZE])
    then None
    else
      var h := SnapshotHeader(bytes[16..32], ReadLe(bytes, 32, 8), ReadLe(bytes, 48, 8), ReadLe(bytes, 56, 8),
                              ReadLe(bytes, 64, 8), ReadLe(bytes, 72, 4), bytes[80..96], bytes[96..104],
                              bytes[104..120], bytes[120..152], bytes[152..216]);
      if SnapshotHeaderAccepted(h) then Some(h) else None
  }

  lemma SnapshotHeaderIdentity(h: SnapshotHeader)
    requires SnapshotHeaderFits(h)
    ensures var b := EncodeSnapshotHeader(h, false); b[..8] == SNAPSHOT_MAGIC && b[16..32] == h.projectId
  {
    hide Le, UnLe, Pow256, Zeros;
    var b := EncodeSnapshotHeader(h, false);
    ReadsArray(b, 0, SNAPSHOT_MAGIC);
    assert b[..8] == b[0..0 + 8];
    ReadsArray(b, 16, h.projectId);
  }

  lemma SnapshotHeaderReserved(h: SnapshotHeader)
    requires SnapshotHeaderFits(h)
    ensures var b := EncodeSnapshotHeader(h, false); AllZero(b[76..80]) && AllZero(b[216..SNAPSHOT_HEADER_SIZE])
  {
    hide Le, UnLe, Pow256, Zeros, SnapshotHeaderNumbers;
    var b := EncodeSnapshotHeader(h, false);
    ReadsReserved(b, 76, 80);
    ReadsReserved(b, 216, SNAPSHOT_HEADER_SIZE);
  }

  lemma SnapshotHeaderSalts(h: SnapshotHeader)
    requires SnapshotHeaderFits(h)
    ensures var b := EncodeSnapshotHeader(h, false);
            b[80..96] == h.snapshotSalt && b[96..104] == h.noncePrefix && b[104..120] == h.signingKeyId
  {
    hide Le, UnLe, Pow256, Zeros, SnapshotHeaderNumbers;
    var b := EncodeSnapshotHeader(h, false);
    ReadsArray(b, 80, h.snapshotSalt);
    ReadsArray(b, 96, h.noncePrefix);
    ReadsArray(b, 104, h.signingKeyId);
  }

  lemma SnapshotHeaderDigests(h: SnapshotHeader)
    requires SnapshotHeaderFits(h)
    ensures var b := EncodeSnapshotHeader(h, false);
            b[120..152] == h.sourceFingerprint && b[152..216] == h.signature
  {
    hide Le, UnLe, Pow256, Zeros, SnapshotHeaderNumbers;
    var b := EncodeSnapshotHeader(h, false);
    ReadsArray(b, 120, h.sourceFingerprint);
    ReadsArray(b, 152, h.signature);
  }

  lemma SnapshotHeaderVersion(h: SnapshotHeader)
    requires SnapshotHeaderFits(h)
    ensures var b := EncodeSnapshotHeader(h, false);
            ReadLe(b, 8, 2) == FORMAT_MAJOR && ReadLe(b, 10, 2) == FORMAT_MINOR
            && ReadLe(b, 12, 4) == SNAPSHOT_HEADER_SIZE
  {
    hide Le, UnLe, Pow256, Zeros;
    var b := EncodeSnapshotHeader(h, false);
    WordSizes();
    ReadsNumber(b, 8, FORMAT_MAJOR, 2);
    ReadsNumber(b, 10, FORMAT_MINOR, 2);
    ReadsNumber(b, 12, SNAPSHOT_HEADER_SIZE, 4);
  }

  lemma SnapshotHeaderSequence(h: SnapshotHeader)
    requires SnapshotHeaderFits(h)
    ensures var b := EncodeSnapshotHeader(h, false);
            ReadLe(b, 40, 8) == SNAPSHOT_HEADER_SIZE && ReadLe(b, 32, 8) == h.releaseSequence
  {
    hide Le, UnLe, Pow256, Zeros;
    var b := EncodeSnapshotHeader(h, false);
    WordSizes();
    ReadsNumber(b, 32, h.releaseSequence, 8);
    ReadsNumber(b, 40, SNAPSHOT_HEADER_SIZE, 8);
  }

  lemma SnapshotHeaderLengths(h: SnapshotHeader)
    requires SnapshotHeaderFits(h)
    ensures var b := EncodeSnapshotHeader(h, false);
            && ReadLe(b, 48, 8) == h.catalogStoredLen && ReadLe(b, 56, 8) == h.catalogPlainLen
            && ReadLe(b, 64, 8) == h.pageRegionOffset && ReadLe(b, 72, 4) == h.pageCount
  {
    hide Le, UnLe, Pow256, Zeros;
    var b := EncodeSnapshotHeader(h, false);
    ReadsNumber(b, 48, h.catalogStoredLen, 8);
    ReadsNumber(b, 56, h.catalogPlainLen, 8);
    ReadsNumber(b, 64, h.pageRegionOffset, 8);
    ReadsNumber(b, 72, h.pageCount, 4);
  }

  lemma SnapshotHeaderSignature(h: SnapshotHeader)
    requires SnapshotHeaderFits(h)
    ensures forall i :: 0 <= i < SNAPSHOT_HEADER_SIZE ==>
              EncodeSnapshotHeader(h, true)[i]
              == if 152 <= i < 216 then 0 else EncodeSnapshotHeader(h, false)[i]
  {
    hide UnsignedSnapshotHeader, Fits;
  }

  /** The written header parses back exactly when the parser's limits hold, and zeroing the signature for
  signing changes nothing but the 64 signature bytes. */
  lemma SnapshotHeaderRoundTrip(h: SnapshotHeader)
    requires SnapshotHeaderFits(h)
    ensures ParseSnapshotHeader(EncodeSnapshotHeader(h, false)) == if SnapshotHeaderAccepted(h) then Some(h) else None
    ensures forall i :: 0 <= i < SNAPSHOT_HEADER_SIZE ==>
              EncodeSnapshotHeader(h, true)[i]
              == if 152 <= i < 216 then 0 else EncodeSnapshotHeader(h, false)[i]
  {
    hide EncodeSnapshotHeader, ReadLe, Fits, AllZero;
    SnapshotHeaderIdentity(h);
    SnapshotHeaderReserved(h);
    SnapshotHeaderSalts(h);
    SnapshotHeaderDigests(h);
    SnapshotHeaderVersion(h);
    SnapshotHeaderSequence(h);
    SnapshotHeaderLengths(h);
    SnapshotHeaderSignature(h);
  }
}
