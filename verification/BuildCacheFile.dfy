/** The development cache file: its printer, its parser, and that they are inverse. */
module BuildCacheFile {
  import opened Basics
  import opened Wire
  import opened Records
  import opened Tables
  import opened Sources

  const MAGIC: Bytes := [72, 65, 75, 66, 67, 48, 48, 50]
  const HEADER_SIZE: nat := 48
  const ENTRY_HEADER_SIZE: nat := 51
  const CHECKSUM_SIZE: nat := 32
  const CHUNK_SIZE: nat := 44
  const MAX_CACHE_BYTES: nat := 256 * 1024 * 1024
  const MAX_ENTRIES: nat := 1_000_000
  const MAX_CHUNKS: nat := 10_000_000
  const NANOS_PER_SECOND: nat := 1_000_000_000

  // ---------------------------------------------------------------- the fixed part of an entry

  /** An entry's fixed part. The modification time is present even where it is not known. */
  datatype Head = Head(pathLen: nat, layout: Layout, access: Access, availability: Availability,
                       compression: Compression, known: bool, fixedBlockLen: nat, len: nat, secs: nat, nanos: nat,
                       device: nat, inode: nat, chunkCount: nat)

  predicate HeadFits(h: Head) {
    && Fits(h.pathLen, 2) && Fits(h.fixedBlockLen, 4) && Fits(h.len, 8) && Fits(h.secs, 8) && Fits(h.nanos, 4)
    && Fits(h.device, 8) && Fits(h.inode, 8) && Fits(h.chunkCount, 4)
  }

  function CompressionByte(c: Compression): Byte {
    match c case Auto => 0 case NeverCompress => 1
  }

  function ParseCompression(b: Byte): Option<Compression> {
    if b == 0 then Some(Auto) else if b == 1 then Some(NeverCompress) else None
  }

  function EncodeHead(h: Head): (b: Bytes)
    ensures |b| == ENTRY_HEADER_SIZE
  {
    var b := Put(Zeros(ENTRY_HEADER_SIZE), 0, Le(h.pathLen, 2));
    var b := Put(b, 2, [LayoutByte(h.layout), AccessByte(h.access), AvailabilityByte(h.availability),
                        CompressionByte(h.compression), if h.known then 1 else 0]);
    var b := Put(b, 7, Le(h.fixedBlockLen, 4));
    var b := Put(b, 11, Le(h.len, 8));
    var b := Put(b, 19, Le(h.secs, 8));
    var b := Put(b, 27, Le(h.nanos, 4));
    var b := Put(b, 31, Le(h.device, 8));
    var b := Put(b, 39, Le(h.inode, 8));
    Put(b, 47, Le(h.chunkCount, 4))
  }

  function ParseHead(b: Bytes): Option<Head>
    requires |b| == ENTRY_HEADER_SIZE
  {
    var layout, access := ParseLayout(b[2]), ParseAccess(b[3]);
    var availability, compression := ParseAvailability(b[4]), ParseCompression(b[5]);
    if layout.None? || access.None? || availability.None? || compression.None? || b[6] > 1 then None
    else
      Some(Head(ReadLe(b, 0, 2), layout.value, access.value, availability.value, compression.value, b[6] == 1,
                ReadLe(b, 7, 4), ReadLe(b, 11, 8), ReadLe(b, 19, 8), ReadLe(b, 27, 4), ReadLe(b, 31, 8),
                ReadLe(b, 39, 8), ReadLe(b, 47, 4)))
  }

  lemma HeadReadsSizes(h: Head)
    requires HeadFits(h)
    ensures var b := EncodeHead(h);
            ReadLe(b, 0, 2) == h.pathLen && ReadLe(b, 7, 4) == h.fixedBlockLen && ReadLe(b, 11, 8) == h.len
            && ReadLe(b, 47, 4) == h.chunkCount
  {
    hide Le, UnLe, Pow256, Zeros;
    var b := EncodeHead(h);
    ReadsNumber(b, 0, h.pathLen, 2);
    ReadsNumber(b, 7, h.fixedBlockLen, 4);
    ReadsNumber(b, 11, h.len, 8);
    ReadsNumber(b, 47, h.chunkCount, 4);
  }

  lemma HeadReadsStamp(h: Head)
    requires HeadFits(h)
    ensures var b := EncodeHead(h);
            ReadLe(b, 19, 8) == h.secs && ReadLe(b, 27, 4) == h.nanos && ReadLe(b, 31, 8) == h.device
            && ReadLe(b, 39, 8) == h.inode
  {
    hide Le, UnLe, Pow256, Zeros;
    var b := EncodeHead(h);
    ReadsNumber(b, 19, h.secs, 8);
    ReadsNumber(b, 27, h.nanos, 4);
    ReadsNumber(b, 31, h.device, 8);
    ReadsNumber(b, 39, h.inode, 8);
  }

  lemma HeadReadsKinds(h: Head)
    ensures var b := EncodeHead(h);
            && b[2] == LayoutByte(h.layout) && b[3] == AccessByte(h.access) && b[4] == AvailabilityByte(h.availability)
            && b[5] == CompressionByte(h.compression) && b[6] == if h.known then 1 else 0
  {
    hide Le, UnLe, Pow256, Zeros;
  }

  lemma HeadRoundTrip(h: Head)
    requires HeadFits(h)
    ensures ParseHead(EncodeHead(h)) == Some(h)
  {
    hide EncodeHead, ReadLe, Le, UnLe, Pow256;
    HeadReadsSizes(h);
    HeadReadsStamp(h);
    HeadReadsKinds(h);
  }

  /** The fields of an accepted fixed part, those of an unknown modification time included, print as its bytes. */
  lemma HeadParseExact(b: Bytes)
    requires |b| == ENTRY_HEADER_SIZE && ParseHead(b).Some?
    ensures HeadFits(ParseHead(b).value) && EncodeHead(ParseHead(b).value) == b
  {
    hide Le, UnLe, Pow256, Zeros;
    WritesNumber(b, 0, 2);
    WritesNumber(b, 7, 4);
    WritesNumber(b, 11, 8);
    WritesNumber(b, 19, 8);
    WritesNumber(b, 27, 4);
    WritesNumber(b, 31, 8);
    WritesNumber(b, 39, 8);
    WritesNumber(b, 47, 4);
    assert EncodeHead(ParseHead(b).value) == b;
  }

  // ------------------------------------------------------------------------ chunks

  predicate ChunkFits(c: CachedChunk) {
    Fits(c.logicalOffset, 8) && Fits(c.plainLen, 4) && |c.chunkId| == 32
  }

  function EncodeChunk(c: CachedChunk): (b: Bytes)
    requires |c.chunkId| == 32
    ensures |b| == CHUNK_SIZE
  {
    Put(Put(Put(Zeros(CHUNK_SIZE), 0, Le(c.logicalOffset, 8)), 8, Le(c.plainLen, 4)), 12, c.chunkId)
  }

  function ParseChunk(b: Bytes): CachedChunk
    requires |b| == CHUNK_SIZE
  {
    CachedChunk(ReadLe(b, 0, 8), ReadLe(b, 8, 4), b[12..CHUNK_SIZE])
  }

  lemma ChunkRoundTrip(c: CachedChunk)
    requires ChunkFits(c)
    ensures ParseChunk(EncodeChunk(c)) == c
  {
    hide Le, UnLe, Pow256, Zeros;
    ReadsNumber(EncodeChunk(c), 0, c.logicalOffset, 8);
    ReadsNumber(EncodeChunk(c), 8, c.plainLen, 4);
    ReadsArray(EncodeChunk(c), 12, c.chunkId);
  }

  lemma ChunkParseExact(b: Bytes)
    requires |b| == CHUNK_SIZE
    ensures ChunkFits(ParseChunk(b)) && EncodeChunk(ParseChunk(b)) == b
  {
    hide Le, UnLe, Pow256, Zeros;
    WritesNumber(b, 0, 8);
    WritesNumber(b, 8, 4);
    assert EncodeChunk(ParseChunk(b)) == b;
  }

  predicate ChunksFit(chunks: seq<CachedChunk>) {
    forall i :: 0 <= i < |chunks| ==> ChunkFits(chunks[i])
  }

  function ChunkTable(chunks: seq<CachedChunk>): (r: Bytes)
    requires ChunksFit(chunks)
    ensures |r| == CHUNK_SIZE * |chunks|
  {
    if chunks == [] then [] else EncodeChunk(chunks[0]) + ChunkTable(chunks[1..])
  }

  function ParseChunkTable(b: Bytes): (r: seq<CachedChunk>)
    requires |b| % CHUNK_SIZE == 0
    ensures CHUNK_SIZE * |r| == |b|
  {
    if b == [] then [] else [ParseChunk(b[..CHUNK_SIZE])] + ParseChunkTable(b[CHUNK_SIZE..])
  }

  lemma {:induction false} ChunkTableRoundTrip(chunks: seq<CachedChunk>)
    requires ChunksFit(chunks)
    ensures ParseChunkTable(ChunkTable(chunks)) == chunks
  {
    hide EncodeChunk, ParseChunk;
    if chunks != [] {
      ChunkRoundTrip(chunks[0]);
      ChunkTableRoundTrip(chunks[1..]);
      var b := ChunkTable(chunks);
      assert b[..CHUNK_SIZE] == EncodeChunk(chunks[0]) && b[CHUNK_SIZE..] == ChunkTable(chunks[1..]);
    }
  }

  lemma {:induction false} ChunkTableParseExact(b: Bytes)
    requires |b| % CHUNK_SIZE == 0
    ensures ChunksFit(ParseChunkTable(b)) && ChunkTable(ParseChunkTable(b)) == b
  {
    hide EncodeChunk, ParseChunk;
    if b != [] {
      ChunkParseExact(b[..CHUNK_SIZE]);
      ChunkTableParseExact(b[CHUNK_SIZE..]);
      assert ParseChunkTable(b)[1..] == ParseChunkTable(b[CHUNK_SIZE..]);
      assert b == b[..CHUNK_SIZE] + b[CHUNK_SIZE..];
    }
  }

  // ------------------------------------------------------------------------ entries

  /** The fields of an entry in the file. */
  datatype RawEntry = RawEntry(path: Bytes, head: Head, chunks: seq<CachedChunk>)

  predicate EntryFits(r: RawEntry) {
    HeadFits(r.head) && r.head.pathLen == |r.path| && r.head.chunkCount == |r.chunks| && ChunksFit(r.chunks)
  }

  function EncodeEntry(r: RawEntry): (b: Bytes)
    requires EntryFits(r)
    ensures |b| == ENTRY_HEADER_SIZE + |r.path| + CHUNK_SIZE * |r.chunks|
  {
    EncodeHead(r.head) + r.path + ChunkTable(r.chunks)
  }

  predicate EntriesFit(raws: seq<RawEntry>) {
    forall i :: 0 <= i < |raws| ==> EntryFits(raws[i])
  }

  function EntryTable(raws: seq<RawEntry>): Bytes
    requires EntriesFit(raws)
  {
    if raws == [] then [] else EncodeEntry(raws[0]) + EntryTable(raws[1..])
  }

  function TotalChunks(raws: seq<RawEntry>): nat {
    if raws == [] then 0 else |raws[0].chunks| + TotalChunks(raws[1..])
  }

  /** What the parser asks of one entry, beyond its being there. */
  predicate EntryAllowed(r: RawEntry, canonical: Bytes -> bool) {
    r.head.nanos < NANOS_PER_SECOND && canonical(r.path)
  }

  predicate AllAllowed(raws: seq<RawEntry>, canonical: Bytes -> bool) {
    forall i :: 0 <= i < |raws| ==> EntryAllowed(raws[i], canonical)
  }

  lemma FirstAllowed(raws: seq<RawEntry>, canonical: Bytes -> bool)
    ensures AllAllowed(raws, canonical) <==>
                raws == [] || (EntryAllowed(raws[0], canonical) && AllAllowed(raws[1..], canonical))
  {
    hide EntryAllowed;
    assert raws != [] ==> raws == [raws[0]] + raws[1..];
  }

  /** One entry at `offset`, after `total` chunks, of a payload that ends at `payloadLen`. */
  function ParseEntry(bytes: Bytes, offset: nat, total: nat, payloadLen: nat,
                      canonical: Bytes -> bool): Option<(RawEntry, nat)>
    requires payloadLen <= |bytes|
  {
    if !InRange(bytes, offset, ENTRY_HEADER_SIZE) then None
    else
      match ParseHead(bytes[offset..offset + ENTRY_HEADER_SIZE])
      case None => None
      case Some(head) =>
        var pathEnd := offset + ENTRY_HEADER_SIZE + head.pathLen;
        var chunksEnd := pathEnd + CHUNK_SIZE * head.chunkCount;
        if total + head.chunkCount > MAX_CHUNKS || head.nanos >= NANOS_PER_SECOND || pathEnd > |bytes|
           || chunksEnd > payloadLen
        then None
        else
          var path := bytes[offset + ENTRY_HEADER_SIZE..pathEnd];
          if !canonical(path) then None
          else Some((RawEntry(path, head, ParseChunkTable(bytes[pathEnd..chunksEnd])), chunksEnd))
  }

  function ParseEntries(bytes: Bytes, offset: nat, count: nat, total: nat, payloadLen: nat,
                        canonical: Bytes -> bool): Option<(seq<RawEntry>, nat)>
    requires payloadLen <= |bytes|
    decreases count
  {
    if count == 0 then Some(([], offset))
    else
      match ParseEntry(bytes, offset, total, payloadLen, canonical)
      case None => None
      case Some((r, next)) =>
        match ParseEntries(bytes, next, count - 1, total + |r.chunks|, payloadLen, canonical)
        case None => None
        case Some((rest, end)) => Some(([r] + rest, end))
  }

  /** The piece lies in the bytes at the offset. */
  ghost predicate At(bytes: Bytes, offset: nat, piece: Bytes) {
    offset + |piece| <= |bytes| && bytes[offset..offset + |piece|] == piece
  }

  lemma AtParts(bytes: Bytes, offset: nat, a: Bytes, b: Bytes)
    ensures At(bytes, offset, a + b) <==> At(bytes, offset, a) && At(bytes, offset + |a|, b)
  {
    if At(bytes, offset, a + b) {
      assert bytes[offset..offset + |a|] == bytes[offset..offset + |a + b|][..|a|];
      assert bytes[offset + |a|..offset + |a + b|] == bytes[offset..offset + |a + b|][|a|..];
    }
    if At(bytes, offset, a) && At(bytes, offset + |a|, b) {
      assert bytes[offset..offset + |a + b|] == bytes[offset..offset + |a|] + bytes[offset + |a|..offset + |a| + |b|];
    }
  }

  /** A printed entry reads back if the parser allows it and there is room for its chunks; else it is refused. */
  lemma EntryRoundTrip(bytes: Bytes, offset: nat, total: nat, payloadLen: nat, canonical: Bytes -> bool, r: RawEntry)
    requires EntryFits(r) && At(bytes, offset, EncodeEntry(r)) && offset + |EncodeEntry(r)| <= payloadLen <= |bytes|
    ensures ParseEntry(bytes, offset, total, payloadLen, canonical)
         == if EntryAllowed(r, canonical) && total + |r.chunks| <= MAX_CHUNKS then Some((r, offset + |EncodeEntry(r)|))
            else None
  {
    hide ChunksFit, HeadFits, EncodeHead, ParseHead, ChunkTable, ParseChunkTable;
    AtParts(bytes, offset, EncodeHead(r.head) + r.path, ChunkTable(r.chunks));
    AtParts(bytes, offset, EncodeHead(r.head), r.path);
    HeadRoundTrip(r.head);
    ChunkTableRoundTrip(r.chunks);
  }

  /** An accepted entry is exactly what its fields print as, and lies wholly inside the checksummed payload. */
  lemma EntryParseExact(bytes: Bytes, offset: nat, total: nat, payloadLen: nat, canonical: Bytes -> bool)
    requires payloadLen <= |bytes| && ParseEntry(bytes, offset, total, payloadLen, canonical).Some?
    ensures var (r, next) := ParseEntry(bytes, offset, total, payloadLen, canonical).value;
            && EntryFits(r) && EntryAllowed(r, canonical) && total + |r.chunks| <= MAX_CHUNKS
            && At(bytes, offset, EncodeEntry(r)) && next == offset + |EncodeEntry(r)| <= payloadLen
  {
    hide EncodeHead, ParseHead, ChunkTable, ParseChunkTable, Fits;
    var (r, next) := ParseEntry(bytes, offset, total, payloadLen, canonical).value;
    var pathEnd := offset + ENTRY_HEADER_SIZE + r.head.pathLen;
    HeadParseExact(bytes[offset..offset + ENTRY_HEADER_SIZE]);
    WholeChunks(r.head.chunkCount);
    ChunkTableParseExact(bytes[pathEnd..next]);
    AtParts(bytes, offset, EncodeHead(r.head), r.path);
    AtParts(bytes, offset, EncodeHead(r.head) + r.path, ChunkTable(r.chunks));
  }

  lemma WholeChunks(n: nat)
    ensures (CHUNK_SIZE * n) % CHUNK_SIZE == 0
  {
  }

  lemma {:induction false} EntriesRoundTrip(bytes: Bytes, offset: nat, total: nat, payloadLen: nat,
                                            canonical: Bytes -> bool, raws: seq<RawEntry>)
    requires EntriesFit(raws) && At(bytes, offset, EntryTable(raws))
    requires offset + |EntryTable(raws)| <= payloadLen <= |bytes|
    requires total <= MAX_CHUNKS
    ensures ParseEntries(bytes, offset, |raws|, total, payloadLen, canonical)
         == if AllAllowed(raws, canonical) && total + TotalChunks(raws) <= MAX_CHUNKS
            then Some((raws, offset + |EntryTable(raws)|)) else None
    decreases |raws|
  {
    hide EntryFits, EncodeEntry, ParseEntry, EntryAllowed, AllAllowed;
    FirstAllowed(raws, canonical);
    if raws != [] {
      AtParts(bytes, offset, EncodeEntry(raws[0]), EntryTable(raws[1..]));
      EntryRoundTrip(bytes, offset, total, payloadLen, canonical, raws[0]);
      if total + |raws[0].chunks| <= MAX_CHUNKS {
        EntriesRoundTrip(bytes, offset + |EncodeEntry(raws[0])|, total + |raws[0].chunks|, payloadLen, canonical,
                         raws[1..]);
      }
      assert raws == [raws[0]] + raws[1..];
    }
  }

  lemma {:induction false} EntriesParseExact(bytes: Bytes, offset: nat, count: nat, total: nat, payloadLen: nat,
                                             canonical: Bytes -> bool)
    requires payloadLen <= |bytes| && ParseEntries(bytes, offset, count, total, payloadLen, canonical).Some?
    requires offset <= payloadLen
    requires total <= MAX_CHUNKS
    ensures var (raws, end) := ParseEntries(bytes, offset, count, total, payloadLen, canonical).value;
            && |raws| == count && EntriesFit(raws) && AllAllowed(raws, canonical)
            && total + TotalChunks(raws) <= MAX_CHUNKS
            && At(bytes, offset, EntryTable(raws)) && end == offset + |EntryTable(raws)| <= payloadLen
    decreases count
  {
    hide EntryFits, EncodeEntry, ParseEntry, EntryAllowed, AllAllowed;
    FirstAllowed(ParseEntries(bytes, offset, count, total, payloadLen, canonical).value.0, canonical);
    if count > 0 {
      EntryParseExact(bytes, offset, total, payloadLen, canonical);
      var (r, next) := ParseEntry(bytes, offset, total, payloadLen, canonical).value;
      EntriesParseExact(bytes, next, count - 1, total + |r.chunks|, payloadLen, canonical);
      var (raws, end) := ParseEntries(bytes, offset, count, total, payloadLen, canonical).value;
      assert raws[1..] == ParseEntries(bytes, next, count - 1, total + |r.chunks|, payloadLen, canonical).value.0;
      AtParts(bytes, offset, EncodeEntry(r), EntryTable(raws[1..]));
    }
  }

  // ------------------------------------------------------------------------ the file

  /** The parts of a cache file: the release it belongs to and its entries. */
  datatype File = File(projectId: Bytes, sequence: nat, raws: seq<RawEntry>)

  predicate FileFits(f: File) {
    |f.projectId| == 16 && Fits(f.sequence, 8) && Fits(|f.raws|, 4) && EntriesFit(f.raws)
  }

  function EncodeHeader(projectId: Bytes, sequence: nat, count: nat): (b: Bytes)
    requires |projectId| == 16
    ensures |b| == HEADER_SIZE
  {
    var b := Put(Zeros(HEADER_SIZE), 0, MAGIC);
    var b := Put(b, 8, Le(2, 2));
    var b := Put(b, 10, Le(HEADER_SIZE, 2));
    var b := Put(b, 12, projectId);
    var b := Put(b, 28, Le(sequence, 8));
    Put(b, 36, Le(count, 4))
  }

  function Payload(f: File): Bytes
    requires FileFits(f)
  {
    EncodeHeader(f.projectId, f.sequence, |f.raws|) + EntryTable(f.raws)
  }

  function FileBytes(f: File, hash: Bytes -> Bytes): Bytes
    requires FileFits(f)
  {
    Payload(f) + hash(Payload(f))
  }

  predicate HeaderAccepted(b: Bytes, projectId: Bytes, sequence: nat)
    requires |b| >= HEADER_SIZE
  {
    && b[..8] == MAGIC && ReadLe(b, 8, 2) == 2 && ReadLe(b, 10, 2) == HEADER_SIZE && b[12..28] == projectId
    && ReadLe(b, 28, 8) == sequence && AllZero(b[40..48])
  }

  predicate PathsDistinct(raws: seq<RawEntry>) {
    forall i, j :: 0 <= i < j < |raws| ==> raws[i].path != raws[j].path
  }

  /** What the parser makes of a file for one project and release. */
  function Parsed(bytes: Bytes, projectId: Bytes, sequence: nat, hash: Bytes -> Bytes,
                  canonical: Bytes -> bool): Option<seq<RawEntry>> {
    if |bytes| < HEADER_SIZE + CHECKSUM_SIZE || !HeaderAccepted(bytes, projectId, sequence) then None
    else
      var payloadLen := |bytes| - CHECKSUM_SIZE;
      var count := ReadLe(bytes, 36, 4);
      if hash(bytes[..payloadLen]) != bytes[payloadLen..] || count > MAX_ENTRIES
         || count > (payloadLen - HEADER_SIZE) / (ENTRY_HEADER_SIZE + 1)
      then None
      else
        match ParseEntries(bytes, HEADER_SIZE, count, 0, payloadLen, canonical)
        case None => None
        case Some((raws, end)) => if PathsDistinct(raws) && end == payloadLen then Some(raws) else None
  }

  /** The limits that a file has to keep to be read again. */
  predicate Readable(f: File, canonical: Bytes -> bool) {
    |f.raws| <= MAX_ENTRIES && TotalChunks(f.raws) <= MAX_CHUNKS && AllAllowed(f.raws, canonical)
    && PathsDistinct(f.raws)
  }

  lemma HeaderReads(projectId: Bytes, sequence: nat, count: nat, b: Bytes)
    requires |projectId| == 16 && Fits(sequence, 8) && Fits(count, 4)
    requires At(b, 0, EncodeHeader(projectId, sequence, count))
    ensures b[..8] == MAGIC && ReadLe(b, 8, 2) == 2 && ReadLe(b, 10, 2) == HEADER_SIZE && b[12..28] == projectId
    ensures ReadLe(b, 28, 8) == sequence && ReadLe(b, 36, 4) == count && AllZero(b[40..48])
  {
    hide Le, UnLe, Pow256, Zeros;
    var h := EncodeHeader(projectId, sequence, count);
    assert forall i :: 0 <= i < HEADER_SIZE ==> b[i] == b[0..HEADER_SIZE][i];
    WordSizes();
    ReadsNumber(b, 8, 2, 2);
    ReadsNumber(b, 10, HEADER_SIZE, 2);
    ReadsNumber(b, 28, sequence, 8);
    ReadsNumber(b, 36, count, 4);
    ReadsArray(b, 0, MAGIC);
    ReadsArray(b, 12, projectId);
    ReadsReserved(b, 40, 48);
  }

  lemma HeaderWrites(b: Bytes, projectId: Bytes, sequence: nat)
    requires |b| >= HEADER_SIZE && HeaderAccepted(b, projectId, sequence)
    ensures |projectId| == 16 && Fits(sequence, 8) && Fits(ReadLe(b, 36, 4), 4)
    ensures At(b, 0, EncodeHeader(projectId, sequence, ReadLe(b, 36, 4)))
  {
    hide Le, UnLe, Pow256, Zeros;
    WritesNumber(b, 8, 2);
    WritesNumber(b, 10, 2);
    WritesNumber(b, 28, 8);
    WritesNumber(b, 36, 4);
    var h := EncodeHeader(projectId, sequence, ReadLe(b, 36, 4));
    assert b[0..8] == b[..8];
    assert forall i :: 0 <= i < 8 ==> b[40 + i] == b[40..48][i];
    assert forall i :: 0 <= i < 16 ==> b[12 + i] == b[12..28][i];
    assert b[0..HEADER_SIZE] == h;
  }

  lemma {:induction false} TableLength(raws: seq<RawEntry>, canonical: Bytes -> bool)
    requires EntriesFit(raws) && AllAllowed(raws, canonical) && !canonical([])
    ensures |EntryTable(raws)| >= |raws| * (ENTRY_HEADER_SIZE + 1)
  {
    hide EntryFits;
    FirstAllowed(raws, canonical);
    if raws != [] {
      TableLength(raws[1..], canonical);
    }
  }

  /** Saving and loading: the file gives back exactly its entries, for its own project and release only, and
  just when it keeps the limits. The early check of the entry count refuses no such file. */
  lemma FileRoundTrip(f: File, projectId: Bytes, sequence: nat, hash: Bytes -> Bytes, canonical: Bytes -> bool)
    requires FileFits(f) && |hash(Payload(f))| == CHECKSUM_SIZE && !canonical([])
    ensures Parsed(FileBytes(f, hash), projectId, sequence, hash, canonical)
         == if projectId == f.projectId && sequence == f.sequence && Readable(f, canonical) then Some(f.raws) else None
  {
    hide EntryFits, EntryTable, EncodeHeader, ParseEntries, HeaderAccepted, PathsDistinct, AllAllowed, TotalChunks;
    var bytes, payload := FileBytes(f, hash), Payload(f);
    var payloadLen := |payload|;
    assert bytes[..payloadLen] == payload && bytes[payloadLen..] == hash(payload);
    var header := EncodeHeader(f.projectId, f.sequence, |f.raws|);
    assert bytes[0..payloadLen] == payload;
    AtParts(bytes, 0, header, EntryTable(f.raws));
    HeaderReads(f.projectId, f.sequence, |f.raws|, bytes);
    HeaderIs(bytes, f, projectId, sequence);
    EntriesRoundTrip(bytes, HEADER_SIZE, 0, payloadLen, canonical, f.raws);
    if Readable(f, canonical) {
      TableLength(f.raws, canonical);
      CountFits(|f.raws|, payloadLen - HEADER_SIZE);
    }
  }

  lemma HeaderIs(bytes: Bytes, f: File, projectId: Bytes, sequence: nat)
    requires |bytes| >= HEADER_SIZE && HeaderAccepted(bytes, f.projectId, f.sequence)
    ensures HeaderAccepted(bytes, projectId, sequence) <==> projectId == f.projectId && sequence == f.sequence
  {
  }

  lemma CountFits(count: nat, room: nat)
    requires room >= count * (ENTRY_HEADER_SIZE + 1)
    ensures count <= room / (ENTRY_HEADER_SIZE + 1)
  {
  }

  /** An accepted file is made of the header, the fields of its entries end to end inside the checksummed payload, and
  the checksum; there is nothing else in it. */
  lemma FileParseExact(bytes: Bytes, projectId: Bytes, sequence: nat, hash: Bytes -> Bytes, canonical: Bytes -> bool)
    requires Parsed(bytes, projectId, sequence, hash, canonical).Some?
    ensures var f := File(projectId, sequence, Parsed(bytes, projectId, sequence, hash, canonical).value);
            FileFits(f) && Readable(f, canonical) && bytes == FileBytes(f, hash)
  {
    hide EntryFits, EntryTable, EncodeHeader, ParseEntries, HeaderAccepted, PathsDistinct, AllAllowed, TotalChunks,
         Fits;
    var payloadLen, count := |bytes| - CHECKSUM_SIZE, ReadLe(bytes, 36, 4);
    HeaderWrites(bytes, projectId, sequence);
    EntriesParseExact(bytes, HEADER_SIZE, count, 0, payloadLen, canonical);
    var raws := Parsed(bytes, projectId, sequence, hash, canonical).value;
    AtParts(bytes, 0, EncodeHeader(projectId, sequence, count), EntryTable(raws));
    assert bytes[0..payloadLen] == bytes[..payloadLen];
  }

  // ------------------------------------------------------------------------ the code

  function EntryOf(r: RawEntry): CachedEntry {
    var h := r.head;
    CachedEntry(Stamp(h.len, if h.known then Some((h.secs, h.nanos)) else None, h.device, h.inode), h.layout,
                h.fixedBlockLen, h.access, h.availability, h.compression, r.chunks)
  }

  /** The entries by path. */
  function MapOf(raws: seq<RawEntry>): map<Bytes, CachedEntry> {
    if raws == [] then map[] else MapOf(raws[..|raws| - 1])[raws[|raws| - 1].path := EntryOf(raws[|raws| - 1])]
  }

  lemma {:induction false} MapOfPaths(raws: seq<RawEntry>, path: Bytes)
    ensures path in MapOf(raws) <==> exists i :: 0 <= i < |raws| && raws[i].path == path
  {
    if raws != [] {
      MapOfPaths(raws[..|raws| - 1], path);
      if path == raws[|raws| - 1].path {
        assert raws[|raws| - 1].path == path;
      }
    }
  }

  lemma {:induction false} MapOfEntry(raws: seq<RawEntry>, i: nat)
    requires PathsDistinct(raws) && i < |raws|
    ensures raws[i].path in MapOf(raws) && MapOf(raws)[raws[i].path] == EntryOf(raws[i])
  {
    if i < |raws| - 1 {
      MapOfEntry(raws[..|raws| - 1], i);
    }
  }

  lemma EntriesContinue(bytes: Bytes, offset: nat, count: nat, total: nat, payloadLen: nat, canonical: Bytes -> bool,
                        done: seq<RawEntry>)
    requires payloadLen <= |bytes| && count > 0
    ensures var one := ParseEntry(bytes, offset, total, payloadLen, canonical);
            Prefixed(done, ParseEntries(bytes, offset, count, total, payloadLen, canonical))
            == if one.None? then None
               else Prefixed(done + [one.value.0],
                             ParseEntries(bytes, one.value.1, count - 1, total + |one.value.0.chunks|, payloadLen,
                                          canonical))
  {
    hide ParseEntry;
    var one := ParseEntry(bytes, offset, total, payloadLen, canonical);
    if one.Some? {
      var rest := ParseEntries(bytes, one.value.1, count - 1, total + |one.value.0.chunks|, payloadLen, canonical);
      if rest.Some? {
        assert done + [one.value.0] + rest.value.0 == done + ([one.value.0] + rest.value.0);
      }
    }
  }

  function Prefixed(done: seq<RawEntry>, rest: Option<(seq<RawEntry>, nat)>): Option<(seq<RawEntry>, nat)> {
    match rest
    case None => None
    case Some((raws, end)) => Some((done + raws, end))
  }

  /** The parser: checks the header, the checksum and the count, then reads entry after entry into a map. */
  method ParseFile(bytes: Bytes, projectId: Bytes, sequence: nat, hash: Bytes -> Bytes, canonical: Bytes -> bool)
    returns (r: Option<map<Bytes, CachedEntry>>)
    ensures match Parsed(bytes, projectId, sequence, hash, canonical)
            case None => r == None
            case Some(raws) => r == Some(MapOf(raws))
  {
    hide ParseEntries, ParseEntry, HeaderAccepted, ReadLe, Prefixed, MapOf, EntryOf, PathsDistinct;
    if |bytes| < HEADER_SIZE + CHECKSUM_SIZE || !HeaderAccepted(bytes, projectId, sequence) {
      return None;
    }
    var payloadLen := |bytes| - CHECKSUM_SIZE;
    if hash(bytes[..payloadLen]) != bytes[payloadLen..] {
      return None;
    }
    var count := ReadLe(bytes, 36, 4);
    if count > MAX_ENTRIES || count > (payloadLen - HEADER_SIZE) / (ENTRY_HEADER_SIZE + 1) {
      return None;
    }
    var offset: nat, totalChunks: nat := HEADER_SIZE, 0;
    var entries: map<Bytes, CachedEntry> := map[];
    ghost var done: seq<RawEntry> := [];
    ghost var all := ParseEntries(bytes, HEADER_SIZE, count, 0, payloadLen, canonical);
    NothingDone(all);
    NoPathsYet();
    for i := 0 to count
      invariant all == Prefixed(done, ParseEntries(bytes, offset, count - i, totalChunks, payloadLen, canonical))
      invariant entries == MapOf(done) && PathsDistinct(done)
    {
      EntriesContinue(bytes, offset, count - i, totalChunks, payloadLen, canonical, done);
      var parsed := ReadEntry(bytes, offset, totalChunks, payloadLen, canonical);
      if parsed.None? {
        return None;
      }
      var (raw, next) := parsed.value;
      if raw.path in entries {
        MapOfPaths(done, raw.path);
        Repeated(done, raw, ParseEntries(bytes, next, count - i - 1, totalChunks + |raw.chunks|, payloadLen,
                                         canonical));
        return None;
      }
      OneMorePath(done, raw);
      offset, totalChunks := next, totalChunks + |raw.chunks|;
      entries := entries[raw.path := EntryOf(raw)];
      done := done + [raw];
    }
    NoEntriesLeft(bytes, offset, totalChunks, payloadLen, canonical, done);
    return if offset == payloadLen then Some(entries) else None;
  }

  lemma NothingDone(all: Option<(seq<RawEntry>, nat)>)
    ensures Prefixed([], all) == all
  {
    if all.Some? {
      assert [] + all.value.0 == all.value.0;
    }
  }

  lemma NoEntriesLeft(bytes: Bytes, offset: nat, total: nat, payloadLen: nat, canonical: Bytes -> bool,
                      done: seq<RawEntry>)
    requires payloadLen <= |bytes|
    ensures Prefixed(done, ParseEntries(bytes, offset, 0, total, payloadLen, canonical)) == Some((done, offset))
  {
    assert done + [] == done;
  }

  lemma NoPathsYet()
    ensures MapOf([]) == map[] && PathsDistinct([])
  {
  }

  lemma OneMorePath(done: seq<RawEntry>, raw: RawEntry)
    requires PathsDistinct(done) && raw.path !in MapOf(done)
    ensures PathsDistinct(done + [raw]) && MapOf(done + [raw]) == MapOf(done)[raw.path := EntryOf(raw)]
  {
    hide EntryOf;
    MapOfPaths(done, raw.path);
    assert (done + [raw])[..|done|] == done;
  }

  lemma Repeated(done: seq<RawEntry>, raw: RawEntry, rest: Option<(seq<RawEntry>, nat)>)
    requires exists i :: 0 <= i < |done| && done[i].path == raw.path
    ensures Prefixed(done + [raw], rest).Some? ==> !PathsDistinct(Prefixed(done + [raw], rest).value.0)
  {
    if rest.Some? {
      var i :| 0 <= i < |done| && done[i].path == raw.path;
      var whole := done + [raw] + rest.value.0;
      assert whole[i].path == whole[|done|].path;
    }
  }

  /** One entry: its fixed part, its path, then its chunks one at a time. */
  method ReadEntry(bytes: Bytes, offset: nat, totalChunks: nat, payloadLen: nat, canonical: Bytes -> bool)
    returns (r: Option<(RawEntry, nat)>)
    requires payloadLen <= |bytes|
    ensures r == ParseEntry(bytes, offset, totalChunks, payloadLen, canonical)
  {
    hide ParseHead, ParseChunk;
    if !InRange(bytes, offset, ENTRY_HEADER_SIZE) {
      return None;
    }
    var head := ParseHead(bytes[offset..offset + ENTRY_HEADER_SIZE]);
    if head.None? || totalChunks + head.value.chunkCount > MAX_CHUNKS || head.value.nanos >= NANOS_PER_SECOND {
      return None;
    }
    var pathEnd := offset + ENTRY_HEADER_SIZE + head.value.pathLen;
    if pathEnd > |bytes| {
      return None;
    }
    var path := bytes[offset + ENTRY_HEADER_SIZE..pathEnd];
    var chunksEnd := pathEnd + CHUNK_SIZE * head.value.chunkCount;
    if !canonical(path) || chunksEnd > payloadLen {
      return None;
    }
    var chunks := ReadChunks(bytes[pathEnd..chunksEnd]);
    return Some((RawEntry(path, head.value, chunks), chunksEnd));
  }

  method ReadChunks(table: Bytes) returns (chunks: seq<CachedChunk>)
    requires |table| % CHUNK_SIZE == 0
    ensures chunks == ParseChunkTable(table)
  {
    hide ParseChunk;
    chunks := [];
    var offset := 0;
    assert table[0..] == table;
    while offset < |table|
      invariant offset <= |table| && |table[offset..]| % CHUNK_SIZE == 0
      invariant ParseChunkTable(table) == chunks + ParseChunkTable(table[offset..])
    {
      var rest := table[offset..];
      assert rest[..CHUNK_SIZE] == table[offset..offset + CHUNK_SIZE]
      && rest[CHUNK_SIZE..] == table[offset + CHUNK_SIZE..];
      chunks := chunks + [ParseChunk(table[offset..offset + CHUNK_SIZE])];
      offset := offset + CHUNK_SIZE;
    }
  }

  /** The fields of an entry as they are written: an unknown modification time is zero. */
  function RawOf(path: Bytes, e: CachedEntry): RawEntry {
    var time := if e.stamp.modified.Some? then e.stamp.modified.value else (0, 0);
    RawEntry(path,
             Head(|path|, e.layout, e.access, e.availability, e.compression, e.stamp.modified.Some?, e.fixedBlockLen,
                  e.stamp.len, time.0, time.1, e.stamp.device, e.stamp.inode, |e.chunks|),
             e.chunks)
  }

  function RawsOf(entries: seq<(Bytes, CachedEntry)>): (raws: seq<RawEntry>)
    ensures |raws| == |entries| && forall i :: 0 <= i < |raws| ==> raws[i] == RawOf(entries[i].0, entries[i].1)
  {
    seq(|entries|, i requires 0 <= i < |entries| => RawOf(entries[i].0, entries[i].1))
  }

  /** The values are those of their machine types. */
  predicate EntryTyped(e: CachedEntry) {
    && Fits(e.fixedBlockLen, 4) && Fits(e.stamp.len, 8) && Fits(e.stamp.device, 8) && Fits(e.stamp.inode, 8)
    && ChunksFit(e.chunks)
    && (e.stamp.modified.Some? ==> Fits(e.stamp.modified.value.0, 8) && Fits(e.stamp.modified.value.1, 4))
  }

  lemma WritingKeepsEntry(path: Bytes, e: CachedEntry)
    ensures EntryOf(RawOf(path, e)) == e
  {
  }

  /** The entries of a file in their order. */
  function EntriesOf(raws: seq<RawEntry>): (entries: seq<(Bytes, CachedEntry)>)
    ensures |entries| == |raws| && forall i :: 0 <= i < |raws| ==> entries[i] == (raws[i].path, EntryOf(raws[i]))
  {
    seq(|raws|, i requires 0 <= i < |raws| => (raws[i].path, EntryOf(raws[i])))
  }

  /** A modification time that is not known is written as zero. */
  predicate TimePlain(h: Head) {
    !h.known ==> h.secs == 0 && h.nanos == 0
  }

  predicate TimesPlain(raws: seq<RawEntry>) {
    forall i :: 0 <= i < |raws| ==> TimePlain(raws[i].head)
  }

  lemma EntryRewritten(r: RawEntry)
    requires EntryFits(r)
    ensures EntryTyped(EntryOf(r)) && EntryFits(RawOf(r.path, EntryOf(r)))
    ensures RawOf(r.path, EntryOf(r)) == r <==> TimePlain(r.head)
  {
    hide ChunksFit, Fits;
    SizesFit();
  }

  lemma {:induction false} TablesAlike(a: seq<RawEntry>, b: seq<RawEntry>)
    requires EntriesFit(a) && EntriesFit(b) && |a| == |b|
    requires forall i :: 0 <= i < |a| ==> a[i].path == b[i].path && a[i].chunks == b[i].chunks
    ensures |EntryTable(a)| == |EntryTable(b)| && TotalChunks(a) == TotalChunks(b)
  {
    hide EntryFits, EncodeHead, ChunkTable, ChunksFit;
    if a != [] {
      TablesAlike(a[1..], b[1..]);
    }
  }

  /** Loading an accepted file and saving its entries again, in their order, gives its bytes back exactly when no
  unknown modification time is written as anything but zero. */
  lemma ResavedExactlyWhen(bytes: Bytes, projectId: Bytes, sequence: nat, hash: Bytes -> Bytes,
                           canonical: Bytes -> bool)
    requires Parsed(bytes, projectId, sequence, hash, canonical).Some?
    ensures var raws := Parsed(bytes, projectId, sequence, hash, canonical).value;
            var entries := EntriesOf(raws);
            var f := File(projectId, sequence, RawsOf(entries));
            && (forall i :: 0 <= i < |entries| ==> EntryTyped(entries[i].1)) && FileFits(f)
            && (FileBytes(f, hash) == bytes <==> TimesPlain(raws))
  {
    hide EntryFits, EntryTable, EncodeHeader, ParseEntries, Parsed, Readable, AllAllowed, TotalChunks, Fits, EntryTyped,
         RawOf, EntryOf, TimePlain;
    FileParseExact(bytes, projectId, sequence, hash, canonical);
    var raws := Parsed(bytes, projectId, sequence, hash, canonical).value;
    var again := RawsOf(EntriesOf(raws));
    forall i | 0 <= i < |raws|
      ensures EntryTyped(EntryOf(raws[i])) && EntryFits(again[i]) && (again[i] == raws[i] <==> TimePlain(raws[i].head))
    {
      EntryRewritten(raws[i]);
    }
    assert again == raws <==> forall i :: 0 <= i < |raws| ==> again[i] == raws[i];
    if FileBytes(File(projectId, sequence, again), hash) == bytes {
      SameFile(projectId, sequence, raws, again, hash, canonical);
    }
  }

  /** Files with the same bytes have the same fields, where paths and chunks agree. */
  lemma SameFile(projectId: Bytes, sequence: nat, raws: seq<RawEntry>, again: seq<RawEntry>, hash: Bytes -> Bytes,
                 canonical: Bytes -> bool)
    requires FileFits(File(projectId, sequence, raws)) && FileFits(File(projectId, sequence, again))
    requires again == RawsOf(EntriesOf(raws)) && Readable(File(projectId, sequence, raws), canonical)
    requires FileBytes(File(projectId, sequence, raws), hash) == FileBytes(File(projectId, sequence, again), hash)
    ensures again == raws
  {
    hide EntryFits, EntryTable, EncodeHeader, ParseEntries, TotalChunks, Fits, PathsDistinct;
    TablesAlike(raws, again);
    var table := EntryTable(raws);
    assert EntryTable(again) == table by {
      var a, b := FileBytes(File(projectId, sequence, raws), hash), FileBytes(File(projectId, sequence, again), hash);
      assert a[HEADER_SIZE..HEADER_SIZE + |table|] == table;
      assert b[HEADER_SIZE..HEADER_SIZE + |table|] == EntryTable(again);
    }
    assert table[0..|table|] == table;
    forall i | 0 <= i < |raws|
      ensures EntryAllowed(again[i], canonical)
    {
      assert EntryAllowed(raws[i], canonical);
    }
    EntriesRoundTrip(table, 0, 0, |table|, canonical, raws);
    EntriesRoundTrip(table, 0, 0, |table|, canonical, again);
  }

  /** A file that a build would not write the same way again: one entry without a modification time, and the number
  of a second in its place. */
  lemma UnknownTimeDropped(projectId: Bytes, hash: Bytes -> Bytes, canonical: Bytes -> bool) returns (bytes: Bytes)
    requires |projectId| == 16 && canonical([0x61]) && !canonical([]) && forall x: Bytes :: |hash(x)| == CHECKSUM_SIZE
    ensures var raws := [RawEntry([0x61], Head(1, Fixed, Hot, Required, Auto, false, 1, 0, 1, 0, 0, 0, 0), [])];
            && Loaded(bytes, projectId, 1, hash, canonical) == Some(raws)
            && FileFits(File(projectId, 1, RawsOf(EntriesOf(raws))))
            && FileBytes(File(projectId, 1, RawsOf(EntriesOf(raws))), hash) != bytes
  {
    var r := RawEntry([0x61], Head(1, Fixed, Hot, Required, Auto, false, 1, 0, 1, 0, 0, 0, 0), []);
    var f := File(projectId, 1, [r]);
    OneEntryFits(f, r, canonical);
    bytes := FileBytes(f, hash);
    hide EntryFits, EntryTable, EncodeHeader, Parsed, Readable, AllAllowed, RawsOf;
    assert !TimePlain(r.head) && [r][0] == r;
    FileRoundTrip(f, projectId, 1, hash, canonical);
    ResavedExactlyWhen(bytes, projectId, 1, hash, canonical);
  }

  lemma OneEntryFits(f: File, r: RawEntry, canonical: Bytes -> bool)
    requires r == RawEntry([0x61], Head(1, Fixed, Hot, Required, Auto, false, 1, 0, 1, 0, 0, 0, 0), [])
    requires |f.projectId| == 16 && f.sequence == 1 && f.raws == [r] && canonical([0x61])
    ensures FileFits(f) && Readable(f, canonical) && |EntryTable(f.raws)| == ENTRY_HEADER_SIZE + 1
  {
    hide EncodeHead, Fits;
    SizesFit();
    OneFits();
    assert f.raws[1..] == [] && EntryFits(r);
    assert TotalChunks(f.raws[1..]) == 0;
  }

  lemma OneFits()
    ensures Fits(1, 8)
  {
    WordSizes();
  }

  /** The printer: appends header, entries and checksum. It refuses what its counts cannot express. */
  method SaveFile(projectId: Bytes, sequence: nat, entries: seq<(Bytes, CachedEntry)>, hash: Bytes -> Bytes)
    returns (r: Result<Bytes>)
    requires |projectId| == 16 && Fits(sequence, 8) && forall i :: 0 <= i < |entries| ==> EntryTyped(entries[i].1)
    ensures r.Ok? <==> FileFits(File(projectId, sequence, RawsOf(entries)))
                       && |hash(Payload(File(projectId, sequence, RawsOf(entries))))| == CHECKSUM_SIZE
    ensures r.Ok? ==> r.value == FileBytes(File(projectId, sequence, RawsOf(entries)), hash)
  {
    hide EncodeHead, EncodeHeader, ChunkTable, ChunksFit, Fits, EntryFits, EncodeEntry, EntryTable, RawOf, EntryTyped;
    SizesFit();
    ghost var raws := RawsOf(entries);
    if |entries| >= U32_LIMIT {
      return Err(InvalidInput);
    }
    var bytes := EncodeHeader(projectId, sequence, |entries|);
    ghost var header := bytes;
    assert raws[..0] == [];
    NoTable();
    for i := 0 to |entries|
      invariant EntriesFit(raws[..i]) && bytes == header + EntryTable(raws[..i])
    {
      var (path, entry) := entries[i];
      assert raws[i] == RawOf(path, entry);
      EntryPrints(path, entry);
      if |path| >= U16_LIMIT || |entry.chunks| >= U32_LIMIT {
        return Err(InvalidInput);
      }
      ghost var before := bytes;
      bytes := bytes + EncodeHead(RawOf(path, entry).head);
      bytes := bytes + path;
      bytes := bytes + ChunkTable(entry.chunks);
      assert raws[..i + 1] == raws[..i] + [raws[i]];
      TableAppend(raws[..i], raws[i]);
      assert bytes == before + EncodeEntry(raws[i]);
      assert bytes == header + EntryTable(raws[..i + 1]);
    }
    assert raws[..|entries|] == raws;
    var checksum := hash(bytes);
    if |checksum| != CHECKSUM_SIZE {
      return Err(InvalidInput);
    }
    return Ok(bytes + checksum);
  }

  lemma NoTable()
    ensures EntryTable([]) == []
  {
  }

  /** An entry can be printed exactly when its counts fit their fields. */
  lemma EntryPrints(path: Bytes, e: CachedEntry)
    requires EntryTyped(e)
    ensures ChunksFit(e.chunks)
    ensures EntryFits(RawOf(path, e)) <==> |path| < U16_LIMIT && |e.chunks| < U32_LIMIT
    ensures EntryFits(RawOf(path, e)) ==>
              EncodeEntry(RawOf(path, e)) == EncodeHead(RawOf(path, e).head) + path + ChunkTable(e.chunks)
  {
    hide EncodeHead, ChunkTable, ChunksFit, Fits;
    SizesFit();
  }

  lemma SizesFit()
    ensures forall n: nat :: Fits(n, 2) <==> n < U16_LIMIT
    ensures forall n: nat :: Fits(n, 4) <==> n < U32_LIMIT
    ensures forall n: nat :: n == 0 ==> Fits(n, 8)
  {
    WordSizes();
  }

  lemma {:induction false} TableAppend(raws: seq<RawEntry>, r: RawEntry)
    requires EntriesFit(raws) && EntryFits(r)
    ensures EntryTable(raws + [r]) == EntryTable(raws) + EncodeEntry(r)
  {
    hide EntryFits, EncodeEntry;
    if raws == [] {
      assert raws + [r] == [r] && [r][1..] == [];
    } else {
      assert (raws + [r])[1..] == raws[1..] + [r];
      TableAppend(raws[1..], r);
    }
  }

  /** Loading bounds the size of a file before parsing it. */
  function Loaded(bytes: Bytes, projectId: Bytes, sequence: nat, hash: Bytes -> Bytes, canonical: Bytes -> bool)
    : Option<seq<RawEntry>>
  {
    if |bytes| > MAX_CACHE_BYTES then None else Parsed(bytes, projectId, sequence, hash, canonical)
  }

  /** A missing file, one beyond the size limit and one that does not parse are no cache; only reading can fail. */
  method LoadFile(file: Option<Bytes>, projectId: Bytes, sequence: nat, hash: Bytes -> Bytes, canonical: Bytes -> bool)
    returns (r: Result<Option<map<Bytes, CachedEntry>>>, ghost faults: nat)
    ensures r.Err? ==> r == Err(Io) && file.Some? && faults > 0
    ensures r.Ok? && file.None? ==> r.value == None
    ensures r.Ok? && file.Some? ==>
              match Loaded(file.value, projectId, sequence, hash, canonical)
              case None => r.value == None
              case Some(raws) => r.value == Some(MapOf(raws))
  {
    hide Parsed, MapOf;
    faults := 0;
    if file.None? {
      return Ok(None), faults;
    }
    var fails: bool := *;
    if fails {
      faults := 1;
      return Err(Io), faults;
    }
    if |file.value| > MAX_CACHE_BYTES {
      return Ok(None), faults;
    }
    var entries := ParseFile(file.value, projectId, sequence, hash, canonical);
    return Ok(entries), faults;
  }

  /** The saved file can be read again: it keeps the parser's limits and the size that loading allows. */
  predicate Reloadable(f: File, hash: Bytes -> Bytes, canonical: Bytes -> bool)
    requires FileFits(f)
  {
    Readable(f, canonical) && |FileBytes(f, hash)| <= MAX_CACHE_BYTES
  }

  /** The entries of a file by path. */
  ghost predicate MapHas(loaded: map<Bytes, CachedEntry>, entries: seq<(Bytes, CachedEntry)>) {
    && (forall i :: 0 <= i < |entries| ==> entries[i].0 in loaded && loaded[entries[i].0] == entries[i].1)
    && (forall path :: path in loaded ==> exists i :: 0 <= i < |entries| && entries[i].0 == path)
  }

  /** What was saved for a project and release is what is loaded for it, path by path, exactly when the limits are
  kept; for any other project or release nothing is loaded. */
  lemma SavedIsLoaded(projectId: Bytes, sequence: nat, entries: seq<(Bytes, CachedEntry)>, hash: Bytes -> Bytes,
                      canonical: Bytes -> bool, otherProject: Bytes, otherSequence: nat)
    requires FileFits(File(projectId, sequence, RawsOf(entries))) && !canonical([])
    requires |hash(Payload(File(projectId, sequence, RawsOf(entries))))| == CHECKSUM_SIZE
    ensures var f := File(projectId, sequence, RawsOf(entries));
            var loaded := Loaded(FileBytes(f, hash), otherProject, otherSequence, hash, canonical);
            && (loaded.Some? <==>
                  otherProject == projectId && otherSequence == sequence && Reloadable(f, hash, canonical))
            && (loaded.Some? ==> MapHas(MapOf(loaded.value), entries))
  {
    hide EntryFits, EntryTable, EncodeHeader, Parsed, FileFits, FileBytes, AllAllowed, TotalChunks, Payload;
    var raws := RawsOf(entries);
    var f := File(projectId, sequence, raws);
    FileRoundTrip(f, otherProject, otherSequence, hash, canonical);
    if otherProject == projectId && otherSequence == sequence && Readable(f, canonical) {
      forall i | 0 <= i < |entries|
        ensures entries[i].0 in MapOf(raws) && MapOf(raws)[entries[i].0] == entries[i].1
      {
        MapOfEntry(raws, i);
        WritingKeepsEntry(entries[i].0, entries[i].1);
      }
      forall path | path in MapOf(raws)
        ensures exists i :: 0 <= i < |entries| && entries[i].0 == path
      {
        MapOfPaths(raws, path);
        var i :| 0 <= i < |raws| && raws[i].path == path;
        assert entries[i].0 == path;
      }
    }
  }
}
