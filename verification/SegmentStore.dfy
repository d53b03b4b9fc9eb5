/** Segment files: what a writer puts into one, and what can later be read from it. */
module SegmentStore {
  import opened Basics
  import opened Wire
  import opened Records
  import opened BlockStore
  import opened Sources

  /** One block of a segment, with the plaintext that was sealed into it and the compression level of its build. */
  datatype StoredBlock = StoredBlock(offset: nat, storedLen: nat, level: int, codec: Codec, digest: Bytes, plain: Bytes)

  /** The blocks of a segment, by ordinal. */
  type Manifest = seq<StoredBlock>

  function Encoded(t: Tool, level: int, codec: Codec, plain: Bytes): Bytes {
    if codec.Raw? then plain else t.compress(level, plain)
  }

  function SealedBlock(t: Tool, uid: Bytes, ordinal: nat, level: int, codec: Codec, plain: Bytes): Bytes {
    var encoded := Encoded(t, level, codec, plain);
    t.seal(BlockAad(uid, ordinal, codec, |encoded| + TAG_SIZE, |plain|), encoded)
  }

  function StoredTotal(m: Manifest): nat {
    if m == [] then 0 else StoredTotal(m[..|m| - 1]) + m[|m| - 1].storedLen
  }

  /** Block `i` lies right after the ones before it and holds its sealed plaintext. */
  ghost predicate EntryAt(t: Tool, uid: Bytes, payload: Bytes, m: Manifest, i: nat)
    requires i < |m|
  {
    var e := m[i];
    var sealed := SealedBlock(t, uid, i, e.level, e.codec, e.plain);
    && 0 < |e.plain| <= MAX_BLOCK_PLAIN_LEN && e.storedLen == |sealed| < U32_LIMIT
    && e.digest == t.crypto.digest(sealed)
    && CanonicalLength(e.codec, e.storedLen, |e.plain|)
    && e.offset == SEGMENT_HEADER_SIZE + StoredTotal(m[..i])
    && e.offset - SEGMENT_HEADER_SIZE + e.storedLen <= |payload|
    && payload[e.offset - SEGMENT_HEADER_SIZE..e.offset - SEGMENT_HEADER_SIZE + e.storedLen] == sealed
  }

  /** The payload is exactly the blocks of the manifest, end to end. */
  ghost predicate Holds(t: Tool, uid: Bytes, payload: Bytes, m: Manifest) {
    |payload| == StoredTotal(m) && (forall i :: 0 <= i < |m| ==> EntryAt(t, uid, payload, m, i))
  }

  lemma HoldsNothing(t: Tool, uid: Bytes)
    ensures Holds(t, uid, [], [])
  {
  }

  lemma HoldsOneMore(t: Tool, uid: Bytes, payload: Bytes, m: Manifest, e: StoredBlock)
    requires Holds(t, uid, payload, m)
    requires 0 < |e.plain| <= MAX_BLOCK_PLAIN_LEN && CanonicalLength(e.codec, e.storedLen, |e.plain|)
    requires var sealed := SealedBlock(t, uid, |m|, e.level, e.codec, e.plain);
             && e == StoredBlock(SEGMENT_HEADER_SIZE + |payload|, |sealed|, e.level, e.codec, t.crypto.digest(sealed),
                                 e.plain)
             && |sealed| < U32_LIMIT
    ensures Holds(t, uid, payload + SealedBlock(t, uid, |m|, e.level, e.codec, e.plain), m + [e])
  {
    var sealed := SealedBlock(t, uid, |m|, e.level, e.codec, e.plain);
    var longer := payload + sealed;
    assert (m + [e])[..|m|] == m;
    forall i | 0 <= i < |m| + 1
      ensures EntryAt(t, uid, longer, m + [e], i)
    {
      if i < |m| {
        hide SealedBlock, StoredTotal, CanonicalLength;
        assert EntryAt(t, uid, payload, m, i);
        assert (m + [e])[..i] == m[..i];
        var lo := m[i].offset - SEGMENT_HEADER_SIZE;
        assert longer[lo..lo + m[i].storedLen] == payload[lo..lo + m[i].storedLen];
      }
    }
  }

  // ------------------------------------------------------------------ segment files

  function HeaderOf(projectId: Bytes, s: SegmentRecord): SegmentHeader {
    SegmentHeader(projectId, s.uid, s.salt, s.noncePrefix, s.blockCount, s.payloadLen, s.fileLen)
  }

  /** The bytes of a finished segment. */
  function SegmentFile(projectId: Bytes, s: SegmentRecord, payload: Bytes): Bytes
    requires SegmentHeaderFits(HeaderOf(projectId, s))
  {
    EncodeSegmentHeader(HeaderOf(projectId, s)) + payload
  }

  /** The data directory has the segment, under its own name and with exactly the manifest's blocks. */
  ghost predicate Stored(t: Tool, projectId: Bytes, data: map<Bytes, Bytes>, s: SegmentRecord, m: Manifest) {
    && SegmentHeaderFits(HeaderOf(projectId, s))
    && s.blockCount == |m| > 0 && s.payloadLen == StoredTotal(m)
    && s.fileLen == SEGMENT_HEADER_SIZE + s.payloadLen < U64_LIMIT
    && s.id in data && |data[s.id]| == s.fileLen && s.id == t.hash(data[s.id])
    && data[s.id] == SegmentFile(projectId, s, data[s.id][SEGMENT_HEADER_SIZE..])
    && Holds(t, s.uid, data[s.id][SEGMENT_HEADER_SIZE..], m)
  }

  /** A finished writer's file is a stored segment. */
  lemma FinishedIsStored(t: Tool, projectId: Bytes, data: map<Bytes, Bytes>, s: SegmentRecord, payload: Bytes,
                         m: Manifest)
    requires SegmentHeaderFits(HeaderOf(projectId, s)) && Holds(t, s.uid, payload, m) && |m| > 0
    requires s.blockCount == |m| && s.payloadLen == |payload|
    requires s.fileLen == SEGMENT_HEADER_SIZE + |payload| < U64_LIMIT
    requires s.id in data && data[s.id] == SegmentFile(projectId, s, payload) && s.id == t.hash(data[s.id])
    ensures Stored(t, projectId, data, s, m)
  {
    hide EncodeSegmentHeader, Holds;
    var file := data[s.id];
    assert |EncodeSegmentHeader(HeaderOf(projectId, s))| == SEGMENT_HEADER_SIZE by {
      HeaderLength(HeaderOf(projectId, s));
    }
    assert file[SEGMENT_HEADER_SIZE..] == payload;
    HoldsLength(t, s.uid, payload, m);
  }

  lemma HeaderLength(h: SegmentHeader)
    requires SegmentHeaderFits(h)
    ensures |EncodeSegmentHeader(h)| == SEGMENT_HEADER_SIZE
  {
  }

  lemma HoldsLength(t: Tool, uid: Bytes, payload: Bytes, m: Manifest)
    requires Holds(t, uid, payload, m)
    ensures |payload| == StoredTotal(m)
  {
  }

  /** Files are only added to the data directory, and a name never changes its content. */
  ghost predicate Extends(data: map<Bytes, Bytes>, more: map<Bytes, Bytes>) {
    forall id :: id in data ==> id in more && more[id] == data[id]
  }

  /** Every file has the name of its content. */
  ghost predicate NamedByContent(t: Tool, data: map<Bytes, Bytes>) {
    forall id :: id in data ==> t.hash(data[id]) == id
  }

  /** Files are only added, each under the name of its content. */
  ghost predicate Adds(t: Tool, data: map<Bytes, Bytes>, more: map<Bytes, Bytes>) {
    Extends(data, more) && forall id :: id in more && id !in data ==> t.hash(more[id]) == id
  }

  lemma AddsNothing(t: Tool, data: map<Bytes, Bytes>)
    ensures Adds(t, data, data)
  {
  }

  lemma AddsOn(t: Tool, a: map<Bytes, Bytes>, b: map<Bytes, Bytes>, c: map<Bytes, Bytes>)
    requires Adds(t, a, b) && Adds(t, b, c)
    ensures Adds(t, a, c)
  {
  }

  lemma StillNamed(t: Tool, data: map<Bytes, Bytes>, more: map<Bytes, Bytes>)
    requires NamedByContent(t, data) && Adds(t, data, more)
    ensures NamedByContent(t, more) && Extends(data, more)
  {
  }

  lemma StoredStays(t: Tool, projectId: Bytes, data: map<Bytes, Bytes>, more: map<Bytes, Bytes>, s: SegmentRecord,
                    m: Manifest)
    requires Stored(t, projectId, data, s, m) && s.id in more && more[s.id] == data[s.id]
    ensures Stored(t, projectId, more, s, m)
  {
    hide EncodeSegmentHeader, Holds;
  }

  /** Two stored segments with different uids have different names. */
  lemma DistinctUidsDistinctNames(t: Tool, projectId: Bytes, data: map<Bytes, Bytes>, more: map<Bytes, Bytes>,
                                  a: SegmentRecord, m: Manifest, b: SegmentRecord, n: Manifest)
    requires Stored(t, projectId, data, a, m) && Stored(t, projectId, more, b, n) && ToolSound(t)
    requires a.id == b.id
    ensures a.uid == b.uid
  {
    hide EncodeSegmentHeader, Holds, ParseSegmentHeader;
    var ha, hb := HeaderOf(projectId, a), HeaderOf(projectId, b);
    HeaderLength(ha);
    HeaderLength(hb);
    assert data[a.id] == more[b.id];
    assert EncodeSegmentHeader(ha) == data[a.id][..SEGMENT_HEADER_SIZE];
    assert EncodeSegmentHeader(hb) == more[b.id][..SEGMENT_HEADER_SIZE];
    SegmentHeaderRoundTrip(ha);
    SegmentHeaderRoundTrip(hb);
  }

  // -------------------------------------------------------------------- references

  /** The reference leads to block `e`. */
  predicate Describes(b: BlockRef, e: StoredBlock) {
    && b.physicalOffset == e.offset && b.storedLen == e.storedLen && b.plainLen == |e.plain|
    && b.codec == e.codec && b.cipherDigest == e.digest
  }

  predicate Located(b: BlockRef, m: Manifest) {
    b.segmentBlockOrdinal < |m| && Describes(b, m[b.segmentBlockOrdinal])
  }

  function PlainAt(b: BlockRef, m: Manifest): Bytes {
    if b.segmentBlockOrdinal < |m| then m[b.segmentBlockOrdinal].plain else []
  }

  function LevelAt(b: BlockRef, m: Manifest): int {
    if b.segmentBlockOrdinal < |m| then m[b.segmentBlockOrdinal].level else 0
  }

  lemma StoredRange(m: Manifest, i: nat)
    requires i < |m|
    ensures StoredTotal(m[..i]) + m[i].storedLen <= StoredTotal(m)
    decreases |m|
  {
    if i + 1 < |m| {
      StoredRange(m[..|m| - 1], i);
      assert m[..|m| - 1][..i] == m[..i];
    }
  }

  /** Opening and decoding a sealed block gives its plaintext. */
  lemma SealedReads(t: Tool, uid: Bytes, ordinal: nat, level: int, codec: Codec, plain: Bytes)
    requires ToolSound(t)
    ensures var encoded := Encoded(t, level, codec, plain);
            var result := t.crypto.open(BlockAad(uid, ordinal, codec, |encoded| + TAG_SIZE, |plain|),
                                        SealedBlock(t, uid, ordinal, level, codec, plain));
            result.Some? && Decoded(t.crypto, codec, result.value, |plain|) == Some(plain)
    ensures |SealedBlock(t, uid, ordinal, level, codec, plain)| == |Encoded(t, level, codec, plain)| + TAG_SIZE
  {
    var encoded := Encoded(t, level, codec, plain);
    assert t.crypto.open(BlockAad(uid, ordinal, codec, |encoded| + TAG_SIZE, |plain|),
                         t.seal(BlockAad(uid, ordinal, codec, |encoded| + TAG_SIZE, |plain|), encoded))
                             == Some(encoded);
  }

  /** A reference into a stored segment lies inside it and covers exactly the sealed block. */
  lemma ReferenceCovers(t: Tool, projectId: Bytes, data: map<Bytes, Bytes>, s: SegmentRecord, m: Manifest, b: BlockRef)
    requires Stored(t, projectId, data, s, m) && Located(b, m)
    ensures SEGMENT_HEADER_SIZE <= b.physicalOffset && b.physicalOffset + b.storedLen <= s.fileLen == |data[s.id]|
    ensures data[s.id][b.physicalOffset..b.physicalOffset + b.storedLen]
         == SealedBlock(t, s.uid, b.segmentBlockOrdinal, LevelAt(b, m), b.codec, PlainAt(b, m))
    ensures b.storedLen == |SealedBlock(t, s.uid, b.segmentBlockOrdinal, LevelAt(b, m), b.codec, PlainAt(b, m))|
    ensures b.cipherDigest == t.crypto.digest(data[s.id][b.physicalOffset..b.physicalOffset + b.storedLen])
    ensures |PlainAt(b, m)| == b.plainLen > 0
  {
    hide SegmentHeaderFits, ParseSegmentHeader, StoredTotal, CanonicalLength, SegmentFile, SealedBlock;
    var file, lo := data[s.id], b.physicalOffset - SEGMENT_HEADER_SIZE;
    assert EntryAt(t, s.uid, file[SEGMENT_HEADER_SIZE..], m, b.segmentBlockOrdinal);
    SliceAfter(file, SEGMENT_HEADER_SIZE, lo, b.storedLen);
  }

  lemma SliceAfter(bytes: Bytes, start: nat, lo: nat, len: nat)
    requires start + lo + len <= |bytes|
    ensures bytes[start + lo..start + lo + len] == bytes[start..][lo..lo + len]
  {
  }

  /** What a reader finds where a reference leads: bytes of the right digest that open and decode to the
  plaintext. */
  lemma ReferenceReads(t: Tool, projectId: Bytes, data: map<Bytes, Bytes>, s: SegmentRecord, m: Manifest, b: BlockRef)
    requires ToolSound(t) && Stored(t, projectId, data, s, m) && Located(b, m)
    ensures SEGMENT_HEADER_SIZE <= b.physicalOffset && b.physicalOffset + b.storedLen <= s.fileLen == |data[s.id]|
    ensures var bytes := data[s.id][b.physicalOffset..b.physicalOffset + b.storedLen];
            var result := t.crypto.open(BlockAad(s.uid, b.segmentBlockOrdinal, b.codec, b.storedLen, b.plainLen),
                                        bytes);
            && t.crypto.digest(bytes) == b.cipherDigest && result.Some?
            && Decoded(t.crypto, b.codec, result.value, b.plainLen) == Some(PlainAt(b, m))
    ensures |PlainAt(b, m)| == b.plainLen > 0
  {
    hide Stored, Located, SealedBlock, ToolSound, PlainAt;
    ReferenceCovers(t, projectId, data, s, m, b);
    SealedReads(t, s.uid, b.segmentBlockOrdinal, LevelAt(b, m), b.codec, PlainAt(b, m));
  }
}
