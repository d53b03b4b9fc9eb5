/** Metadata pages: how block references and chunk identities are split into encrypted pages and found again. */
module Pages {
  import opened Basics
  import opened Wire
  import opened Records
  import opened Tables
  import opened Catalogs

  const MAP_PAGE_MAGIC: Bytes := [72, 65, 75, 77, 65, 80, 48, 50]
  const REUSE_PAGE_MAGIC: Bytes := [72, 65, 75, 82, 69, 85, 48, 50]
  const COMPRESSION_SAVINGS: nat := 64

  datatype PageAad = PageAad(kind: PageKind, codec: Codec, nonceOrdinal: nat, storedLen: nat, plainLen: nat)

  /** The primitives that pages rely on; project, release sequence, key and nonce prefix are fixed inside them. */
  datatype PageCrypto = PageCrypto(compress: (int, Bytes) -> Bytes, decompress: Bytes -> Option<Bytes>,
                                   seal: (PageAad, Bytes) -> Bytes, open: (PageAad, Bytes) -> Option<Bytes>,
                                   digest: Bytes -> Bytes)

  /** Compression and sealing are undone by decompression and opening; a tag is 16 bytes. */
  ghost predicate Lawful(c: PageCrypto) {
    && (forall level: int, x: Bytes :: c.decompress(c.compress(level, x)) == Some(x))
    && (forall a: PageAad, x: Bytes :: |c.seal(a, x)| == |x| + TAG_SIZE && c.open(a, c.seal(a, x)) == Some(x))
  }

  const PAGE_DIGEST_SIZE: nat := 32

  /** No two byte strings have one digest. */
  ghost predicate DigestsDistinct(c: PageCrypto) {
    forall x: Bytes, y: Bytes :: c.digest(x) == c.digest(y) ==> x == y
  }

  // -------------------------------------------------------------- page payloads

  function PageHeader(magic: Bytes, recordSize: nat, first: nat): (b: Bytes)
    requires |magic| == 8
    ensures |b| == PAGE_HEADER_SIZE
  {
    var b := Put(Zeros(PAGE_HEADER_SIZE), 0, magic);
    var b := Put(b, 8, Le(FORMAT_MAJOR, 2));
    var b := Put(b, 10, Le(recordSize, 2));
    Put(b, 12, Le(first, 4))
  }

  ghost function BlockParts(records: seq<BlockRef>): (parts: seq<Bytes>)
    requires forall i :: 0 <= i < |records| ==> BlockFits(records[i])
    ensures |parts| == |records| && Uniform(parts, BLOCK_REF_SIZE)
  {
    seq(|records|, i requires 0 <= i < |records| && BlockFits(records[i]) => EncodeBlock(records[i]))
  }

  ghost function MapPage(first: nat, records: seq<BlockRef>): Bytes
    requires forall i :: 0 <= i < |records| ==> BlockFits(records[i])
  {
    PageHeader(MAP_PAGE_MAGIC, BLOCK_REF_SIZE, first) + Join(BlockParts(records))
  }

  ghost function ReusePage(first: nat, ids: seq<Bytes>): Bytes {
    PageHeader(REUSE_PAGE_MAGIC, REUSE_RECORD_SIZE, first) + Join(ids)
  }

  method EncodeMapPage(first: nat, records: seq<BlockRef>) returns (r: Result<Bytes>)
    requires forall i :: 0 <= i < |records| ==> BlockFits(records[i])
    ensures r == if records == [] || |records| > BLOCKS_PER_MAP_PAGE then Err(InvalidFormat)
                 else Ok(MapPage(first, records))
  {
    hide EncodeBlock, Join, PageHeader;
    if records == [] || |records| > BLOCKS_PER_MAP_PAGE {
      return Err(InvalidFormat);
    }
    var out := PageHeader(MAP_PAGE_MAGIC, BLOCK_REF_SIZE, first);
    JoinNone(BlockParts(records));
    for i := 0 to |records|
      invariant out == PageHeader(MAP_PAGE_MAGIC, BLOCK_REF_SIZE, first) + Join(BlockParts(records)[..i])
    {
      JoinNext(BlockParts(records), i);
      out := out + EncodeBlock(records[i]);
    }
    JoinAll(BlockParts(records));
    return Ok(out);
  }

  method EncodeReusePage(first: nat, ids: seq<Bytes>) returns (r: Result<Bytes>)
    ensures r == if ids == [] || |ids| > REUSE_PER_PAGE then Err(InvalidFormat) else Ok(ReusePage(first, ids))
  {
    hide Join, PageHeader;
    if ids == [] || |ids| > REUSE_PER_PAGE {
      return Err(InvalidFormat);
    }
    var out := PageHeader(REUSE_PAGE_MAGIC, REUSE_RECORD_SIZE, first);
    JoinNone(ids);
    for i := 0 to |ids|
      invariant out == PageHeader(REUSE_PAGE_MAGIC, REUSE_RECORD_SIZE, first) + Join(ids[..i])
    {
      JoinNext(ids, i);
      out := out + ids[i];
    }
    JoinAll(ids);
    return Ok(out);
  }

  /** `parse_page_header`: the number of records on the page. */
  function RecordCount(bytes: Bytes, magic: Bytes, recordSize: nat, expectedFirst: nat): Option<nat>
    requires recordSize > 0
  {
    if |bytes| < PAGE_HEADER_SIZE || bytes[..8] != magic || ReadLe(bytes, 8, 2) != FORMAT_MAJOR
       || ReadLe(bytes, 10, 2) != recordSize || ReadLe(bytes, 12, 4) != expectedFirst
    then None
    else
      var payload := |bytes| - PAGE_HEADER_SIZE;
      if payload == 0 || payload % recordSize != 0 then None else Some(payload / recordSize)
  }

  function MapPageRecord(bytes: Bytes, index: nat): Option<BlockRef> {
    ParseBlock(bytes, PAGE_HEADER_SIZE + index * BLOCK_REF_SIZE)
  }

  lemma PageHeaderRead(magic: Bytes, recordSize: nat, first: nat, payload: Bytes)
    requires |magic| == 8 && recordSize < U16_LIMIT && first < U32_LIMIT
    ensures var b := PageHeader(magic, recordSize, first) + payload;
            && b[..8] == magic && ReadLe(b, 8, 2) == FORMAT_MAJOR && ReadLe(b, 10, 2) == recordSize
            && ReadLe(b, 12, 4) == first
  {
    hide Le, UnLe, Pow256, Zeros;
    var b := PageHeader(magic, recordSize, first) + payload;
    WordSizes();
    ReadsArray(b, 0, magic);
    assert b[..8] == b[0..0 + 8];
    ReadsNumber(b, 8, FORMAT_MAJOR, 2);
    ReadsNumber(b, 10, recordSize, 2);
    ReadsNumber(b, 12, first, 4);
  }

  lemma MapPageRead(first: nat, records: seq<BlockRef>)
    requires forall i :: 0 <= i < |records| ==> BlockFits(records[i]) && BlockLengthsCanonical(records[i])
    requires records != [] && first < U32_LIMIT
    ensures |MapPage(first, records)| == PAGE_HEADER_SIZE + |records| * BLOCK_REF_SIZE
    ensures RecordCount(MapPage(first, records), MAP_PAGE_MAGIC, BLOCK_REF_SIZE, first) == Some(|records|)
    ensures forall i :: 0 <= i < |records| ==> MapPageRecord(MapPage(first, records), i) == Some(records[i])
  {
    hide EncodeBlock, Join, PageHeader, ParseBlock, ReadLe;
    var b, parts := MapPage(first, records), BlockParts(records);
    PageHeaderRead(MAP_PAGE_MAGIC, BLOCK_REF_SIZE, first, Join(parts));
    JoinLength(parts, BLOCK_REF_SIZE);
    assert b[PAGE_HEADER_SIZE..PAGE_HEADER_SIZE + |Join(parts)|] == Join(parts);
    forall i | 0 <= i < |records|
      ensures MapPageRecord(b, i) == Some(records[i])
    {
      TableAt(b, PAGE_HEADER_SIZE, parts, BLOCK_REF_SIZE, i, i * BLOCK_REF_SIZE);
      BlockRoundTrip(b, PAGE_HEADER_SIZE + i * BLOCK_REF_SIZE, records[i]);
    }
  }

  /** The fixed-size pieces of a reuse payload. */
  function Pieces(payload: Bytes, size: nat, count: nat): (pieces: seq<Bytes>)
    requires |payload| == count * size
    decreases count
  {
    if count == 0 then []
    else
      assert count * size == (count - 1) * size + size;
      [payload[..size]] + Pieces(payload[size..], size, count - 1)
  }

  lemma {:induction false} PiecesOfJoin(ids: seq<Bytes>, size: nat)
    requires Uniform(ids, size)
    ensures |Join(ids)| == |ids| * size && Pieces(Join(ids), size, |ids|) == ids
  {
    JoinLength(ids, size);
    if ids != [] {
      PiecesOfJoin(ids[1..], size);
      assert |ids| * size == (|ids| - 1) * size + size;
      assert Join(ids) == ids[0] + Join(ids[1..]);
      assert Join(ids)[..size] == ids[0] && Join(ids)[size..] == Join(ids[1..]);
    }
  }

  function ParseReusePage(bytes: Bytes, expectedFirst: nat): Option<seq<Bytes>> {
    match RecordCount(bytes, REUSE_PAGE_MAGIC, REUSE_RECORD_SIZE, expectedFirst)
    case None => None
    case Some(count) => Some(Pieces(bytes[PAGE_HEADER_SIZE..], REUSE_RECORD_SIZE, count))
  }

  lemma ReusePageRead(first: nat, ids: seq<Bytes>)
    requires Uniform(ids, REUSE_RECORD_SIZE) && ids != [] && first < U32_LIMIT
    ensures |ReusePage(first, ids)| == PAGE_HEADER_SIZE + |ids| * REUSE_RECORD_SIZE
    ensures ParseReusePage(ReusePage(first, ids), first) == Some(ids)
  {
    hide Join, PageHeader, ReadLe, Pieces;
    PageHeaderRead(REUSE_PAGE_MAGIC, REUSE_RECORD_SIZE, first, Join(ids));
    PiecesOfJoin(ids, REUSE_RECORD_SIZE);
    assert ReusePage(first, ids)[PAGE_HEADER_SIZE..] == Join(ids);
  }

  // --------------------------------------------------------- sealing and opening

  function CompressBytes(c: PageCrypto, level: int, plain: Bytes): (Codec, Bytes) {
    var compressed := c.compress(level, plain);
    if |compressed| + COMPRESSION_SAVINGS < |plain| then (Zstd, compressed) else (Raw, plain)
  }

  function Decode(c: PageCrypto, codec: Codec, stored: Bytes, expectedLen: nat): Option<Bytes> {
    match codec
    case Raw => if |stored| == expectedLen then Some(stored) else None
    case Zstd =>
      match c.decompress(stored)
      case None => None
      case Some(plain) => if |plain| == expectedLen then Some(plain) else None
  }

  function Aad(r: PageRecord): PageAad {
    PageAad(r.kind, r.codec, r.nonceOrdinal, r.storedLen, r.plainLen)
  }

  /** One page sealed as number `index` of the directory at `offset` of the page region. */
  function SealPage(c: PageCrypto, level: int, kind: PageKind, plain: Bytes, index: nat,
                    offset: nat): (PageRecord, Bytes) {
    var (codec, encoded) := CompressBytes(c, level, plain);
    var storedLen := |encoded| + TAG_SIZE;
    var cipher := c.seal(PageAad(kind, codec, index + 1, storedLen, |plain|), encoded);
    (PageRecord(kind, codec, index + 1, offset, storedLen, |plain|, c.digest(cipher)), cipher)
  }

  function OpenPage(c: PageCrypto, r: PageRecord, cipher: Bytes): Option<Bytes> {
    if c.digest(cipher) != r.digest then None
    else
      match c.open(Aad(r), cipher)
      case None => None
      case Some(stored) => Decode(c, r.codec, stored, r.plainLen)
  }

  lemma SealedOpens(c: PageCrypto, level: int, kind: PageKind, plain: Bytes, index: nat, offset: nat)
    requires Lawful(c) && 0 < |plain| <= MAX_PAGE_PLAIN_LEN
    ensures var (r, cipher) := SealPage(c, level, kind, plain, index, offset);
            && OpenPage(c, r, cipher) == Some(plain) && |cipher| == r.storedLen <= |plain| + TAG_SIZE
            && r.plainLen == |plain| && r.kind == kind && r.nonceOrdinal == index + 1 && r.relativeOffset == offset
            && PageLengthsCanonical(r) && r.digest == c.digest(cipher)
  {
  }

  /** The runtime's page load, without its cache: `region` is the page region of the snapshot file. */
  function LoadPage(c: PageCrypto, directory: seq<PageRecord>, region: Bytes, index: nat,
                    kind: PageKind): Option<Bytes> {
    if index >= |directory| then None
    else
      var page := directory[index];
      if page.kind != kind || page.relativeOffset + page.storedLen > |region| then None
      else OpenPage(c, page, region[page.relativeOffset..page.relativeOffset + page.storedLen])
  }

  datatype EncryptedPages = EncryptedPages(directory: seq<PageRecord>, ciphertexts: seq<Bytes>, mapCount: nat,
                                           reuseCount: nat)

  /** Every page of the directory lies where it says and opens to its plaintext. */
  ghost predicate Sealed(c: PageCrypto, directory: seq<PageRecord>, ciphertexts: seq<Bytes>, plains: seq<Bytes>) {
    && |directory| == |ciphertexts| == |plains|
    && (forall i :: 0 <= i < |directory| ==> SealedAt(c, directory, ciphertexts, plains, i))
  }

  ghost predicate SealedAt(c: PageCrypto, directory: seq<PageRecord>, ciphertexts: seq<Bytes>, plains: seq<Bytes>,
                           i: nat)
    requires i < |directory| == |ciphertexts| == |plains|
  {
    var r := directory[i];
    && OpenPage(c, r, ciphertexts[i]) == Some(plains[i]) && |ciphertexts[i]| == r.storedLen <= |plains[i]| + TAG_SIZE
    && r.plainLen == |plains[i]| && r.nonceOrdinal == i + 1 && r.relativeOffset == PageStart(directory, i)
    && PageLengthsCanonical(r) && |r.digest| == 32
  }

  lemma {:induction false} PageStartAppend(directory: seq<PageRecord>, r: PageRecord, i: nat)
    requires i <= |directory|
    ensures PageStart(directory + [r], i) == PageStart(directory, i)
  {
    if i > 0 {
      PageStartAppend(directory, r, i - 1);
    }
  }

  lemma SealedAppend(c: PageCrypto, level: int, directory: seq<PageRecord>, ciphertexts: seq<Bytes>, plains: seq<Bytes>,
                     kind: PageKind, plain: Bytes)
    requires Lawful(c) && Sealed(c, directory, ciphertexts, plains) && 0 < |plain| <= MAX_PAGE_PLAIN_LEN
    requires var start := PageStart(directory, |directory|);
             |SealPage(c, level, kind, plain, |directory|, start).0.digest| == PAGE_DIGEST_SIZE
    ensures var (r, cipher) := SealPage(c, level, kind, plain, |directory|, PageStart(directory, |directory|));
            && Sealed(c, directory + [r], ciphertexts + [cipher], plains + [plain])
            && PageStart(directory + [r], |directory| + 1) == PageStart(directory, |directory|) + r.storedLen
            && r.kind == kind
  {
    hide SealPage, OpenPage, PageLengthsCanonical;
    var n := |directory|;
    SealedOpens(c, level, kind, plain, n, PageStart(directory, n));
    var (r, cipher) := SealPage(c, level, kind, plain, n, PageStart(directory, n));
    PageStartAppend(directory, r, n);
    forall i | 0 <= i < n + 1
      ensures SealedAt(c, directory + [r], ciphertexts + [cipher], plains + [plain], i)
    {
      if i < n {
        PageStartAppend(directory, r, i);
        assert SealedAt(c, directory, ciphertexts, plains, i);
      }
    }
  }

  // ------------------------------------------------------------------ pagination

  /** Page `p` of a list cut into pages of `capacity` records. */
  function PageSlice<T>(records: seq<T>, p: nat, capacity: nat): seq<T>
    requires p * capacity <= |records|
  {
    records[p * capacity..Min(p * capacity + capacity, |records|)]
  }

  ghost predicate BlocksAccepted(blocks: seq<BlockRef>) {
    forall i :: 0 <= i < |blocks| ==> BlockFits(blocks[i]) && BlockLengthsCanonical(blocks[i])
  }

  ghost function PlainPages(blocks: seq<BlockRef>, ids: seq<Bytes>, maps: nat, reuses: nat): (plains: seq<Bytes>)
    requires BlocksAccepted(blocks)
    requires maps <= DivCeil(|blocks|, BLOCKS_PER_MAP_PAGE) && reuses <= DivCeil(|ids|, REUSE_PER_PAGE)
    ensures |plains| == maps + reuses
  {
    seq(maps, p requires 0 <= p < maps =>
          MapPage(p * BLOCKS_PER_MAP_PAGE, PageSlice(blocks, p, BLOCKS_PER_MAP_PAGE)))
    + seq(reuses, p requires 0 <= p < reuses =>
            ReusePage(p * REUSE_PER_PAGE, PageSlice(ids, p, REUSE_PER_PAGE)))
  }

  ghost predicate KindsInOrder(directory: seq<PageRecord>, mapCount: nat) {
    forall i :: 0 <= i < |directory| ==> directory[i].kind == if i < mapCount then BlockMap else Reuse
  }

  /** What `build_pages` promises about its result. */
  ghost predicate Paginated(c: PageCrypto, e: EncryptedPages, blocks: seq<BlockRef>, ids: seq<Bytes>)
    requires BlocksAccepted(blocks) && |blocks| == |ids|
  {
    && e.mapCount == DivCeil(|blocks|, BLOCKS_PER_MAP_PAGE) && e.reuseCount == DivCeil(|ids|, REUSE_PER_PAGE)
    && Sealed(c, e.directory, e.ciphertexts, PlainPages(blocks, ids, e.mapCount, e.reuseCount))
    && KindsInOrder(e.directory, e.mapCount)
  }

  /** The digest of this page has the width of its field. */
  ghost predicate DigestFits(c: PageCrypto, level: int, kind: PageKind, plain: Bytes, index: nat) {
    |SealPage(c, level, kind, plain, index, 0).0.digest| == PAGE_DIGEST_SIZE
  }

  ghost predicate MapDigestFits(c: PageCrypto, level: int, blocks: seq<BlockRef>, page: nat)
    requires BlocksAccepted(blocks) && page * BLOCKS_PER_MAP_PAGE < |blocks|
  {
    var plain := MapPage(page * BLOCKS_PER_MAP_PAGE, PageSlice(blocks, page, BLOCKS_PER_MAP_PAGE));
    DigestFits(c, level, BlockMap, plain, page)
  }

  ghost predicate ReuseDigestFits(c: PageCrypto, level: int, ids: seq<Bytes>, maps: nat, page: nat)
    requires page * REUSE_PER_PAGE < |ids|
  {
    DigestFits(c, level, Reuse, ReusePage(page * REUSE_PER_PAGE, PageSlice(ids, page, REUSE_PER_PAGE)), maps + page)
  }

  ghost predicate MapDigestsFit(c: PageCrypto, level: int, blocks: seq<BlockRef>, n: nat)
    requires BlocksAccepted(blocks)
  {
    forall page: nat :: page < n && page * BLOCKS_PER_MAP_PAGE < |blocks| ==> MapDigestFits(c, level, blocks, page)
  }

  ghost predicate ReuseDigestsFit(c: PageCrypto, level: int, ids: seq<Bytes>, maps: nat, n: nat) {
    forall page: nat :: page < n && page * REUSE_PER_PAGE < |ids| ==> ReuseDigestFits(c, level, ids, maps, page)
  }

  /** The digest of every page of these lists has the width of its field. */
  ghost predicate DigestsFit(c: PageCrypto, level: int, blocks: seq<BlockRef>, ids: seq<Bytes>)
    requires BlocksAccepted(blocks)
  {
    var maps := DivCeil(|blocks|, BLOCKS_PER_MAP_PAGE);
    MapDigestsFit(c, level, blocks, maps) && ReuseDigestsFit(c, level, ids, maps, DivCeil(|ids|, REUSE_PER_PAGE))
  }

  lemma NoDigests(c: PageCrypto, level: int, blocks: seq<BlockRef>)
    requires BlocksAccepted(blocks)
    ensures MapDigestsFit(c, level, blocks, 0)
  {
  }

  lemma NoDigestsYet(c: PageCrypto, level: int, ids: seq<Bytes>, maps: nat)
    ensures ReuseDigestsFit(c, level, ids, maps, 0)
  {
  }

  lemma NextMapDigest(c: PageCrypto, level: int, blocks: seq<BlockRef>, page: nat)
    requires BlocksAccepted(blocks) && page * BLOCKS_PER_MAP_PAGE < |blocks|
    ensures var plain := MapPage(page * BLOCKS_PER_MAP_PAGE, PageSlice(blocks, page, BLOCKS_PER_MAP_PAGE));
            && (DigestFits(c, level, BlockMap, plain, page) && MapDigestsFit(c, level, blocks, page) ==>
                  MapDigestsFit(c, level, blocks, page + 1))
            && forall n :: page < n && MapDigestsFit(c, level, blocks, n) ==>
                 DigestFits(c, level, BlockMap, plain, page)
  {
    hide DigestFits, MapPage;
    var plain := MapPage(page * BLOCKS_PER_MAP_PAGE, PageSlice(blocks, page, BLOCKS_PER_MAP_PAGE));
    assert MapDigestFits(c, level, blocks, page) <==> DigestFits(c, level, BlockMap, plain, page);
  }

  lemma NextReuseDigest(c: PageCrypto, level: int, ids: seq<Bytes>, maps: nat, page: nat)
    requires page * REUSE_PER_PAGE < |ids|
    ensures var plain := ReusePage(page * REUSE_PER_PAGE, PageSlice(ids, page, REUSE_PER_PAGE));
            && (DigestFits(c, level, Reuse, plain, maps + page) && ReuseDigestsFit(c, level, ids, maps, page) ==>
                  ReuseDigestsFit(c, level, ids, maps, page + 1))
            && forall n :: page < n && ReuseDigestsFit(c, level, ids, maps, n) ==>
                 DigestFits(c, level, Reuse, plain, maps + page)
  {
    hide DigestFits, ReusePage;
    var plain := ReusePage(page * REUSE_PER_PAGE, PageSlice(ids, page, REUSE_PER_PAGE));
    assert ReuseDigestFits(c, level, ids, maps, page) <==> DigestFits(c, level, Reuse, plain, maps + page);
  }

  /** The offset of a page has no part in its digest. */
  lemma SameDigest(c: PageCrypto, level: int, kind: PageKind, plain: Bytes, index: nat, offset: nat)
    ensures SealPage(c, level, kind, plain, index, offset).0.digest
         == SealPage(c, level, kind, plain, index, 0).0.digest
  {
  }

  /** `encrypt_page`: seals one more page and moves the running offset. */
  method EncryptPage(c: PageCrypto, level: int, kind: PageKind, plain: Bytes, offset: nat, directory: seq<PageRecord>,
                     ciphertexts: seq<Bytes>,
                     ghost plains: seq<Bytes>) returns (r: Result<(nat, seq<PageRecord>, seq<Bytes>)>)
    requires Lawful(c) && 0 < |plain| <= 16 * 1024
    requires Sealed(c, directory, ciphertexts, plains) && offset == PageStart(directory, |directory|)
    ensures offset + 17_000 < U64_LIMIT && DigestFits(c, level, kind, plain, |directory|) ==> r.Ok?
    ensures r.Ok? ==> DigestFits(c, level, kind, plain, |directory|)
    ensures r.Ok? ==>
              var (offset', directory', ciphertexts') := r.value;
              && Sealed(c, directory', ciphertexts', plains + [plain])
              && |directory'| == |directory| + 1 && directory'[..|directory|] == directory
              && directory'[|directory|].kind == kind
              && offset' == PageStart(directory', |directory'|) <= offset + 17_000
  {
    SameDigest(c, level, kind, plain, |directory|, offset);
    hide SealPage, Lawful, Sealed;
    var (record, cipher) := SealPage(c, level, kind, plain, |directory|, offset);
    SealedOpens(c, level, kind, plain, |directory|, offset);
    SealedLengths(c, directory, ciphertexts, plains);
    if |record.digest| != PAGE_DIGEST_SIZE {
      return Err(InvalidInput);
    }
    SealedAppend(c, level, directory, ciphertexts, plains, kind, plain);
    if offset + record.storedLen >= U64_LIMIT {
      return Err(InvalidInput);
    }
    return Ok((offset + record.storedLen, directory + [record], ciphertexts + [cipher]));
  }

  lemma SealedLengths(c: PageCrypto, directory: seq<PageRecord>, ciphertexts: seq<Bytes>, plains: seq<Bytes>)
    requires Sealed(c, directory, ciphertexts, plains)
    ensures |directory| == |ciphertexts| == |plains|
  {
  }

  /** The map page after the first `page`. */
  lemma NextMapPage(blocks: seq<BlockRef>, ids: seq<Bytes>, page: nat)
    requires BlocksAccepted(blocks) && page * BLOCKS_PER_MAP_PAGE < |blocks| && page * BLOCKS_PER_MAP_PAGE < U32_LIMIT
    ensures page + 1 <= DivCeil(|blocks|, BLOCKS_PER_MAP_PAGE)
    ensures var records := PageSlice(blocks, page, BLOCKS_PER_MAP_PAGE);
            && 0 < |records| <= BLOCKS_PER_MAP_PAGE && BlocksAccepted(records)
            && 0 < |MapPage(page * BLOCKS_PER_MAP_PAGE, records)| <= 16 * 1024
            && PlainPages(blocks, ids, page + 1, 0)
               == PlainPages(blocks, ids, page, 0) + [MapPage(page * BLOCKS_PER_MAP_PAGE, records)]
  {
    hide Join, EncodeBlock, BlockFits, BlockLengthsCanonical, ParseBlock, PageHeader;
    MapPageRead(page * BLOCKS_PER_MAP_PAGE, PageSlice(blocks, page, BLOCKS_PER_MAP_PAGE));
  }

  lemma NextReusePage(blocks: seq<BlockRef>, ids: seq<Bytes>, maps: nat, page: nat)
    requires BlocksAccepted(blocks) && maps <= DivCeil(|blocks|, BLOCKS_PER_MAP_PAGE) && Uniform(ids, REUSE_RECORD_SIZE)
    requires page * REUSE_PER_PAGE < |ids| && page * REUSE_PER_PAGE < U32_LIMIT
    ensures page + 1 <= DivCeil(|ids|, REUSE_PER_PAGE)
    ensures var records := PageSlice(ids, page, REUSE_PER_PAGE);
            && 0 < |records| <= REUSE_PER_PAGE && 0 < |ReusePage(page * REUSE_PER_PAGE, records)| <= 16 * 1024
            && PlainPages(blocks, ids, maps, page + 1)
               == PlainPages(blocks, ids, maps, page) + [ReusePage(page * REUSE_PER_PAGE, records)]
  {
    hide Join, PageHeader, MapPage;
    ReusePageRead(page * REUSE_PER_PAGE, PageSlice(ids, page, REUSE_PER_PAGE));
  }

  method BuildPages(c: PageCrypto, level: int, blocks: seq<BlockRef>, ids: seq<Bytes>)
    returns (r: Result<EncryptedPages>)
    requires Lawful(c) && BlocksAccepted(blocks) && Uniform(ids, REUSE_RECORD_SIZE)
    ensures |blocks| != |ids| ==> r == Err(InvalidInput)
    ensures |blocks| == |ids| && |blocks| <= MAX_BLOCKS && DigestsFit(c, level, blocks, ids) ==> r.Ok?
    ensures r.Ok? ==> DigestsFit(c, level, blocks, ids)
    ensures r.Ok? ==> |blocks| == |ids| && Paginated(c, r.value, blocks, ids)
  {
    hide Sealed, MapPage, ReusePage, PlainPages, Lawful, DigestFits, MapDigestsFit, ReuseDigestsFit, KindsInOrder,
         PageStart, BlockFits, BlockLengthsCanonical, PageSlice;
    if |blocks| != |ids| {
      return Err(InvalidInput);
    }
    var directory: seq<PageRecord>, ciphertexts: seq<Bytes>, offset := [], [], 0;
    NoPagesSealed(c, blocks, ids);
    NoDigests(c, level, blocks);
    var page, first := 0, 0;
    while first < |blocks|
      invariant first == page * BLOCKS_PER_MAP_PAGE && page <= DivCeil(|blocks|, BLOCKS_PER_MAP_PAGE)
      invariant |directory| == page
      invariant Sealed(c, directory, ciphertexts, PlainPages(blocks, ids, page, 0))
      invariant offset == PageStart(directory, page) <= page * 17_000
      invariant KindsInOrder(directory, page)
      invariant MapDigestsFit(c, level, blocks, page)
      decreases |blocks| - first
    {
      if first >= U32_LIMIT {
        return Err(InvalidInput);
      }
      NextMapPage(blocks, ids, page);
      NextMapDigest(c, level, blocks, page);
      var plain := EncodeMapPage(first, PageSlice(blocks, page, BLOCKS_PER_MAP_PAGE));
      var next := EncryptPage(c, level, BlockMap, plain.value, offset, directory, ciphertexts,
                              PlainPages(blocks, ids, page, 0));
      if next.Err? {
        return Err(InvalidInput);
      }
      KindsExtended(directory, next.value.1, page, page + 1);
      offset, directory, ciphertexts := next.value.0, next.value.1, next.value.2;
      page, first := page + 1, first + BLOCKS_PER_MAP_PAGE;
    }
    var mapCount := page;
    NoDigestsYet(c, level, ids, mapCount);
    page, first := 0, 0;
    while first < |ids|
      invariant first == page * REUSE_PER_PAGE && page <= DivCeil(|ids|, REUSE_PER_PAGE)
      invariant |directory| == mapCount + page
      invariant Sealed(c, directory, ciphertexts, PlainPages(blocks, ids, mapCount, page))
      invariant offset == PageStart(directory, mapCount + page) <= (mapCount + page) * 17_000
      invariant KindsInOrder(directory, mapCount)
      invariant ReuseDigestsFit(c, level, ids, mapCount, page)
      decreases |ids| - first
    {
      if first >= U32_LIMIT {
        return Err(InvalidInput);
      }
      NextReusePage(blocks, ids, mapCount, page);
      NextReuseDigest(c, level, ids, mapCount, page);
      var plain := EncodeReusePage(first, PageSlice(ids, page, REUSE_PER_PAGE));
      var next := EncryptPage(c, level, Reuse, plain.value, offset, directory, ciphertexts,
                              PlainPages(blocks, ids, mapCount, page));
      if next.Err? {
        return Err(InvalidInput);
      }
      KindsExtended(directory, next.value.1, mapCount, mapCount);
      offset, directory, ciphertexts := next.value.0, next.value.1, next.value.2;
      page, first := page + 1, first + REUSE_PER_PAGE;
    }
    return Ok(EncryptedPages(directory, ciphertexts, mapCount, page));
  }

  lemma NoPagesSealed(c: PageCrypto, blocks: seq<BlockRef>, ids: seq<Bytes>)
    requires BlocksAccepted(blocks)
    ensures Sealed(c, [], [], PlainPages(blocks, ids, 0, 0)) && PageStart([], 0) == 0 && KindsInOrder([], 0)
  {
  }

  lemma KindsExtended(directory: seq<PageRecord>, longer: seq<PageRecord>, mapCount: nat, mapCount': nat)
    requires |longer| == |directory| + 1 && longer[..|directory|] == directory && KindsInOrder(directory, mapCount)
    requires longer[|directory|].kind == if |directory| < mapCount' then BlockMap else Reuse
    requires mapCount' == mapCount || (mapCount' == mapCount + 1 && mapCount == |directory|)
    ensures KindsInOrder(longer, mapCount')
  {
    forall i | 0 <= i < |longer|
      ensures longer[i].kind == if i < mapCount' then BlockMap else Reuse
    {
      if i < |directory| {
        assert longer[..|directory|][i] == directory[i];
      }
    }
  }

  // --------------------------------------------------------------- finding pages

  lemma {:induction false} PageStartIsPrefix(c: PageCrypto, directory: seq<PageRecord>, ciphertexts: seq<Bytes>,
                                             plains: seq<Bytes>, i: nat)
    requires Sealed(c, directory, ciphertexts, plains) && i <= |directory|
    ensures PageStart(directory, i) == |Join(ciphertexts[..i])|
  {
    if i == 0 {
      JoinNone(ciphertexts);
    } else {
      PageStartIsPrefix(c, directory, ciphertexts, plains, i - 1);
      JoinNext(ciphertexts, i - 1);
      assert SealedAt(c, directory, ciphertexts, plains, i - 1);
    }
  }

  lemma {:induction false} JoinTwo(a: seq<Bytes>, b: seq<Bytes>)
    ensures Join(a + b) == Join(a) + Join(b)
  {
    if a == [] {
      assert a + b == b;
    } else {
      assert (a + b)[1..] == a[1..] + b;
      JoinTwo(a[1..], b);
    }
  }

  /** Part `i` of a join of parts of any lengths. */
  lemma JoinPart(parts: seq<Bytes>, i: nat)
    requires i < |parts|
    ensures var start := |Join(parts[..i])|;
            start + |parts[i]| <= |Join(parts)| && Join(parts)[start..start + |parts[i]|] == parts[i]
  {
    var rest := parts[i + 1..];
    JoinNext(parts, i);
    JoinTwo(parts[..i + 1], rest);
    assert parts == parts[..i + 1] + rest;
    assert Join(parts) == Join(parts[..i]) + parts[i] + Join(rest);
  }

  /** The pages written one after another are each found and opened. */
  lemma LoadsSealed(c: PageCrypto, directory: seq<PageRecord>, ciphertexts: seq<Bytes>, plains: seq<Bytes>, i: nat)
    requires Sealed(c, directory, ciphertexts, plains) && i < |directory|
    ensures LoadPage(c, directory, Join(ciphertexts), i, directory[i].kind) == Some(plains[i])
  {
    hide Join, OpenPage, PageLengthsCanonical;
    assert SealedAt(c, directory, ciphertexts, plains, i);
    PageStartIsPrefix(c, directory, ciphertexts, plains, i);
    JoinPart(ciphertexts, i);
  }

  /** `block_ref`: the page that holds block `i`, then the record on it. */
  function FindBlock(c: PageCrypto, directory: seq<PageRecord>, region: Bytes, total: nat, mapCount: nat,
                     i: nat): Option<BlockRef> {
    var page := i / BLOCKS_PER_MAP_PAGE;
    if i >= total || page >= mapCount then None
    else
      match LoadPage(c, directory, region, page, BlockMap)
      case None => None
      case Some(bytes) =>
        var first := page * BLOCKS_PER_MAP_PAGE;
        match RecordCount(bytes, MAP_PAGE_MAGIC, BLOCK_REF_SIZE, first)
        case None => None
        case Some(count) => if i - first >= count then None else MapPageRecord(bytes, i - first)
  }

  /** Pagination loses nothing: `block_ref(i)` is the `i`-th block given to the packer. */
  lemma FindsEveryBlock(c: PageCrypto, e: EncryptedPages, blocks: seq<BlockRef>, ids: seq<Bytes>, i: nat)
    requires BlocksAccepted(blocks) && |blocks| == |ids| <= MAX_BLOCKS && Paginated(c, e, blocks, ids) && i < |blocks|
    ensures FindBlock(c, e.directory, Join(e.ciphertexts), |blocks|, e.mapCount, i) == Some(blocks[i])
  {
    hide Join, MapPage, Sealed, RecordCount, MapPageRecord, LoadPage, BlockFits, BlockLengthsCanonical;
    var page := i / BLOCKS_PER_MAP_PAGE;
    var plains := PlainPages(blocks, ids, e.mapCount, e.reuseCount);
    SealedLengths(c, e.directory, e.ciphertexts, plains);
    LoadsSealed(c, e.directory, e.ciphertexts, plains, page);
    var records := PageSlice(blocks, page, BLOCKS_PER_MAP_PAGE);
    MapPageRead(page * BLOCKS_PER_MAP_PAGE, records);
    assert records[i - page * BLOCKS_PER_MAP_PAGE] == blocks[i];
  }

  lemma FindsReusePage(c: PageCrypto, e: EncryptedPages, blocks: seq<BlockRef>, ids: seq<Bytes>, page: nat)
    requires BlocksAccepted(blocks) && |blocks| == |ids| <= MAX_BLOCKS && Paginated(c, e, blocks, ids)
    requires Uniform(ids, REUSE_RECORD_SIZE)
    requires page < e.reuseCount
    ensures LoadPage(c, e.directory, Join(e.ciphertexts), e.mapCount + page, Reuse).Some?
    ensures ParseReusePage(LoadPage(c, e.directory, Join(e.ciphertexts), e.mapCount + page, Reuse).value,
                           page * REUSE_PER_PAGE)
            == Some(PageSlice(ids, page, REUSE_PER_PAGE))
  {
    hide Join, ReusePage, Sealed, ParseReusePage, LoadPage;
    var plains := PlainPages(blocks, ids, e.mapCount, e.reuseCount);
    SealedLengths(c, e.directory, e.ciphertexts, plains);
    LoadsSealed(c, e.directory, e.ciphertexts, plains, e.mapCount + page);
    ReusePageRead(page * REUSE_PER_PAGE, PageSlice(ids, page, REUSE_PER_PAGE));
  }

  datatype ReuseRecord = ReuseRecord(chunkId: Bytes, block: BlockRef)

  function Zip(ids: seq<Bytes>, blocks: seq<BlockRef>): seq<ReuseRecord>
    requires |ids| <= |blocks|
  {
    seq(|ids|, i requires 0 <= i < |ids| => ReuseRecord(ids[i], blocks[i]))
  }

  /** The packer-only reader of reuse pages gives back both lists, paired. */
  method ReuseRecords(c: PageCrypto, e: EncryptedPages, region: Bytes, total: nat, ghost blocks: seq<BlockRef>,
                      ghost ids: seq<Bytes>)
    returns (r: Result<seq<ReuseRecord>>)
    requires BlocksAccepted(blocks) && |blocks| == |ids| == total <= MAX_BLOCKS && Uniform(ids, REUSE_RECORD_SIZE)
    requires Paginated(c, e, blocks, ids) && region == Join(e.ciphertexts)
    ensures r == Ok(Zip(ids, blocks))
  {
    hide Join, Paginated, FindBlock, ParseReusePage, LoadPage, BlocksAccepted;
    var records := [];
    PageCountsOfPagination(c, e, blocks, ids);
    for page := 0 to e.reuseCount
      invariant page * REUSE_PER_PAGE >= |ids| ==> |records| == |ids|
      invariant page * REUSE_PER_PAGE < |ids| ==> |records| == page * REUSE_PER_PAGE
      invariant |records| <= |ids| && records == Zip(ids[..|records|], blocks)
    {
      FindsReusePage(c, e, blocks, ids, page);
      var bytes := LoadPage(c, e.directory, region, e.mapCount + page, Reuse);
      if bytes.None? {
        return Err(InvalidFormat);
      }
      var expectedFirst := page * REUSE_PER_PAGE;
      var onPage := ParseReusePage(bytes.value, expectedFirst);
      if onPage.None? {
        return Err(InvalidFormat);
      }
      for local := 0 to |onPage.value|
        invariant |records| == expectedFirst + local <= |ids| && records == Zip(ids[..|records|], blocks)
      {
        FindsEveryBlock(c, e, blocks, ids, expectedFirst + local);
        var block := FindBlock(c, e.directory, region, total, e.mapCount, expectedFirst + local);
        if block.None? {
          return Err(InvalidFormat);
        }
        assert onPage.value[local] == ids[expectedFirst + local];
        records := records + [ReuseRecord(onPage.value[local], block.value)];
      }
    }
    assert ids[..|ids|] == ids;
    if |records| != total {
      return Err(InvalidFormat);
    }
    return Ok(records);
  }

  lemma PageCountsOfPagination(c: PageCrypto, e: EncryptedPages, blocks: seq<BlockRef>, ids: seq<Bytes>)
    requires BlocksAccepted(blocks) && |blocks| == |ids| && Paginated(c, e, blocks, ids)
    ensures e.reuseCount == DivCeil(|ids|, REUSE_PER_PAGE) && e.mapCount == DivCeil(|blocks|, BLOCKS_PER_MAP_PAGE)
  {
  }

  lemma {:induction false} PageStartBound(c: PageCrypto, directory: seq<PageRecord>, ciphertexts: seq<Bytes>,
                                          plains: seq<Bytes>, i: nat)
    requires Sealed(c, directory, ciphertexts, plains) && i <= |directory|
    ensures PageStart(directory, i) <= i * (MAX_PAGE_PLAIN_LEN + TAG_SIZE)
  {
    if i > 0 {
      PageStartBound(c, directory, ciphertexts, plains, i - 1);
      assert SealedAt(c, directory, ciphertexts, plains, i - 1);
    }
  }

  lemma MapPageLength(blocks: seq<BlockRef>, page: nat)
    requires BlocksAccepted(blocks) && |blocks| <= MAX_BLOCKS && page < DivCeil(|blocks|, BLOCKS_PER_MAP_PAGE)
    ensures |MapPage(page * BLOCKS_PER_MAP_PAGE, PageSlice(blocks, page, BLOCKS_PER_MAP_PAGE))|
            == PAGE_HEADER_SIZE + RecordsOnPage(|blocks|, page, BLOCKS_PER_MAP_PAGE) * BLOCK_REF_SIZE
  {
    hide MapPage, BlockFits, BlockLengthsCanonical, RecordCount, MapPageRecord;
    MapPageRead(page * BLOCKS_PER_MAP_PAGE, PageSlice(blocks, page, BLOCKS_PER_MAP_PAGE));
  }

  lemma ReusePageLength(ids: seq<Bytes>, page: nat)
    requires Uniform(ids, REUSE_RECORD_SIZE) && |ids| <= MAX_BLOCKS && page < DivCeil(|ids|, REUSE_PER_PAGE)
    ensures |ReusePage(page * REUSE_PER_PAGE, PageSlice(ids, page, REUSE_PER_PAGE))|
            == PAGE_HEADER_SIZE + RecordsOnPage(|ids|, page, REUSE_PER_PAGE) * REUSE_RECORD_SIZE
  {
    hide ReusePage, ParseReusePage;
    ReusePageRead(page * REUSE_PER_PAGE, PageSlice(ids, page, REUSE_PER_PAGE));
  }

  lemma StoredEndFits(c: PageCrypto, directory: seq<PageRecord>, ciphertexts: seq<Bytes>, plains: seq<Bytes>, i: nat)
    requires Sealed(c, directory, ciphertexts, plains) && i < |directory| <= MAX_PAGES
    ensures PageStart(directory, i) + directory[i].storedLen < U64_LIMIT
  {
    hide Sealed, PageLengthsCanonical;
    SealedParts(c, directory, ciphertexts, plains, i);
    PageStartBound(c, directory, ciphertexts, plains, i);
  }

  lemma PaginatedPlain(c: PageCrypto, e: EncryptedPages, blocks: seq<BlockRef>, ids: seq<Bytes>, i: nat)
    requires BlocksAccepted(blocks) && |blocks| == |ids| <= MAX_BLOCKS && Paginated(c, e, blocks, ids)
    requires Uniform(ids, REUSE_RECORD_SIZE)
    requires i < |e.directory|
    ensures |e.directory| == e.mapCount + e.reuseCount <= MAX_PAGES
    ensures e.mapCount == DivCeil(|blocks|, BLOCKS_PER_MAP_PAGE)
    ensures e.directory[i].plainLen
            == PAGE_HEADER_SIZE + if i < e.mapCount then
                   RecordsOnPage(|blocks|, i, BLOCKS_PER_MAP_PAGE) * BLOCK_REF_SIZE
                                  else RecordsOnPage(|ids|, i - e.mapCount, REUSE_PER_PAGE) * REUSE_RECORD_SIZE
  {
    hide MapPage, ReusePage, PageLengthsCanonical, Sealed, BlocksAccepted, RecordsOnPage, PageSlice;
    var plains := PlainPages(blocks, ids, e.mapCount, e.reuseCount);
    SealedLengths(c, e.directory, e.ciphertexts, plains);
    SealedParts(c, e.directory, e.ciphertexts, plains, i);
    if i < e.mapCount {
      MapPageLength(blocks, i);
    } else {
      ReusePageLength(ids, i - e.mapCount);
    }
  }

  /** The directory passes the runtime's validation, and the nonce ordinals of one snapshot key (the
  catalog's 0 and one per page) are pairwise distinct. */
  lemma DirectoryAccepted(c: PageCrypto, e: EncryptedPages, blocks: seq<BlockRef>, ids: seq<Bytes>)
    requires BlocksAccepted(blocks) && |blocks| == |ids| <= MAX_BLOCKS && Paginated(c, e, blocks, ids)
    requires Uniform(ids, REUSE_RECORD_SIZE)
    ensures |e.directory| == e.mapCount + e.reuseCount <= MAX_PAGES && PageCountsOk(|blocks|, e.mapCount, e.reuseCount)
    ensures forall i :: 0 <= i < |e.directory| ==>
              && PageLengthsCanonical(e.directory[i])
              && PageOk(e.directory[i], i, e.mapCount, |blocks|, PageStart(e.directory, i))
    ensures forall i :: 0 <= i < |e.directory| ==> e.directory[i].nonceOrdinal != 0
    ensures forall i, j :: 0 <= i < j < |e.directory| ==> e.directory[i].nonceOrdinal != e.directory[j].nonceOrdinal
  {
    hide PageLengthsCanonical, Sealed, BlocksAccepted, RecordsOnPage, PlainPages;
    var plains := PlainPages(blocks, ids, e.mapCount, e.reuseCount);
    SealedLengths(c, e.directory, e.ciphertexts, plains);
    forall i | 0 <= i < |e.directory|
      ensures PageLengthsCanonical(e.directory[i]) && e.directory[i].nonceOrdinal == i + 1
      ensures PageOk(e.directory[i], i, e.mapCount, |blocks|, PageStart(e.directory, i))
    {
      SealedParts(c, e.directory, e.ciphertexts, plains, i);
      PaginatedPlain(c, e, blocks, ids, i);
      StoredEndFits(c, e.directory, e.ciphertexts, plains, i);
    }
  }

  lemma SealedParts(c: PageCrypto, directory: seq<PageRecord>, ciphertexts: seq<Bytes>, plains: seq<Bytes>, i: nat)
    requires Sealed(c, directory, ciphertexts, plains) && i < |directory|
    ensures var r := directory[i];
            && r.plainLen == |plains[i]| <= MAX_PAGE_PLAIN_LEN && r.storedLen <= r.plainLen + TAG_SIZE
            && r.nonceOrdinal == i + 1 && r.relativeOffset == PageStart(directory, i) && PageLengthsCanonical(r)
  {
    assert SealedAt(c, directory, ciphertexts, plains, i);
  }
}
