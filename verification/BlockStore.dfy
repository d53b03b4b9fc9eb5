/** The shared side of an open package: segment handles, decode buffers, caches and verified block loads. */
module BlockStore {
  import opened Basics
  import opened Wire
  import opened Records
  import opened Catalogs
  import opened Pages
  import ClockCaches

  // ------------------------------------------------------------- segment handles

  /** An open segment file, identified by the segment it was opened for. */
  datatype Handle = Handle(id: Bytes)

  /** Least-recently-used handles: `order` lists the cached identities, oldest first. */
  class HandleCache {
    const capacity: nat
    var values: map<Bytes, Handle>
    var order: seq<Bytes>

    ghost predicate Valid()
      reads this
    {
      LruSound(values, order) && |order| <= capacity
    }

    constructor (capacity: nat)
      ensures Valid() && this.capacity == capacity && order == []
    {
      this.capacity := capacity;
      values, order := map[], [];
    }

    method Get(id: Bytes) returns (r: Option<Handle>)
      requires Valid()
      modifies this
      ensures Valid() && r == (if id in old(values) then Some(Handle(id)) else None)
      ensures values == old(values)
      ensures id !in old(values) ==> order == old(order)
      ensures id in old(values) ==> order == Without(old(order), id) + [id]
    {
      if id !in values {
        return None;
      }
      var position := Position(order, id);
      WithoutAt(order, position);
      MoveToRecent(values, order, position);
      order := order[..position] + order[position + 1..];
      order := order + [id];
      r := Some(values[id]);
    }

    /** Adds at the recent end; a full cache drops its oldest entry first. */
    method Insert(id: Bytes, value: Handle)
      requires Valid() && value == Handle(id)
      modifies this
      ensures Valid()
      ensures capacity == 0 || id in old(values) ==> values == old(values) && order == old(order)
      ensures capacity > 0 && id !in old(values) ==>
                && order == (if |old(order)| == capacity then old(order)[1..] else old(order)) + [id]
                && id in values
    {
      hide LruSound;
      LruSizes(values, order);
      if capacity == 0 || id in values {
        return;
      }
      while |values| >= capacity
        invariant LruSound(values, order) && |values| == |order| <= capacity && id !in values
        invariant order == old(order) || (|old(order)| == capacity && order == old(order)[1..])
        decreases |values|
      {
        if order == [] {
          break;
        }
        var oldest := order[0];
        DropOldest(values, order);
        order := order[1..];
        values := values - {oldest};
        LruSizes(values, order);
      }
      AddRecent(values, order, id);
      order := order + [id];
      values := values[id := value];
    }

    method Clear()
      modifies this
      ensures Valid() && values == map[] && order == []
    {
      values, order := map[], [];
    }
  }

  /** `order` lists the keys of `values` without repetition, and each handle is for its own segment. */
  ghost predicate LruSound(values: map<Bytes, Handle>, order: seq<Bytes>) {
    && (forall id :: id in values <==> id in order)
    && (forall i, j :: 0 <= i < j < |order| ==> order[i] != order[j])
    && |values| == |order|
    && (forall id :: id in values ==> values[id] == Handle(id))
  }

  lemma LruSizes(values: map<Bytes, Handle>, order: seq<Bytes>)
    requires LruSound(values, order)
    ensures |values| == |order| && (forall id :: id in values <==> id in order)
  {
  }

  lemma DropOldest(values: map<Bytes, Handle>, order: seq<Bytes>)
    requires order != [] && LruSound(values, order)
    ensures LruSound(values - {order[0]}, order[1..])
  {
    assert order[0] in values;
    assert (values - {order[0]}).Keys == values.Keys - {order[0]};
    assert |values.Keys| == |values|;
    forall id | id in order && id != order[0]
      ensures id in order[1..]
    {
      var i :| 0 <= i < |order| && order[i] == id;
      assert order[1..][i - 1] == id;
    }
    assert |(values - {order[0]}).Keys| == |values - {order[0]}|;
  }

  lemma AddRecent(values: map<Bytes, Handle>, order: seq<Bytes>, id: Bytes)
    requires LruSound(values, order) && id !in values
    ensures LruSound(values[id := Handle(id)], order + [id])
  {
    assert |values[id := Handle(id)]| == |values| + 1;
  }

  lemma MoveToRecent(values: map<Bytes, Handle>, order: seq<Bytes>, p: nat)
    requires LruSound(values, order) && p < |order|
    ensures LruSound(values, order[..p] + order[p + 1..] + [order[p]])
  {
    MovedElements(order, p);
  }

  lemma MovedElements(order: seq<Bytes>, p: nat)
    requires p < |order| && forall i, j :: 0 <= i < j < |order| ==> order[i] != order[j]
    ensures var moved := order[..p] + order[p + 1..] + [order[p]];
            && |moved| == |order| && (forall id :: id in moved <==> id in order)
            && (forall i, j :: 0 <= i < j < |moved| ==> moved[i] != moved[j])
  {
    var n := |order|;
    var moved := order[..p] + order[p + 1..] + [order[p]];
    forall k | 0 <= k < n
      ensures moved[k] == order[if k < p then k else if k + 1 < n then k + 1 else p]
    {
    }
    forall id | id in order
      ensures id in moved
    {
      var i :| 0 <= i < n && order[i] == id;
      assert moved[if i < p then i else if i == p then n - 1 else i - 1] == id;
    }
  }

  function Position(order: seq<Bytes>, id: Bytes): (p: nat)
    requires id in order
    ensures p < |order| && order[p] == id && id !in order[..p]
  {
    if order[0] == id then 0
    else
      var p := Position(order[1..], id);
      assert order[..p + 1] == [order[0]] + order[1..][..p];
      p + 1
  }

  function Without(order: seq<Bytes>, id: Bytes): seq<Bytes> {
    if order == [] then [] else if order[0] == id then Without(order[1..], id) else [order[0]] + Without(order[1..], id)
  }

  lemma {:induction false} WithoutAbsent(order: seq<Bytes>, id: Bytes)
    requires id !in order
    ensures Without(order, id) == order
  {
    if order != [] {
      WithoutAbsent(order[1..], id);
    }
  }

  lemma {:induction false} WithoutAt(order: seq<Bytes>, p: nat)
    requires p < |order| && forall i, j :: 0 <= i < j < |order| ==> order[i] != order[j]
    ensures Without(order, order[p]) == order[..p] + order[p + 1..]
  {
    if p == 0 {
      WithoutAbsent(order[1..], order[0]);
    } else {
      WithoutAt(order[1..], p - 1);
      assert order[..p] + order[p + 1..] == [order[0]] + (order[1..][..p - 1] + order[1..][p..]);
    }
  }

  // -------------------------------------------------------------- decode buffers

  /** A growable buffer: its bytes, and the room it keeps when emptied. */
  datatype Vec = Vec(bytes: Bytes, capacity: nat) {
    /** Keeps the old bytes up to `len`: nothing is cleared. */
    function Resize(len: nat): Vec {
      Vec(if len <= |bytes| then bytes[..len] else bytes + Zeros(len - |bytes|), Max(capacity, len))
    }

    function Cleared(): Vec {
      Vec([], capacity)
    }
  }

  const NO_VEC: Vec := Vec([], 0)

  datatype BlockData = Shared(bytes: Bytes) | Owned(vec: Vec) {
    function Content(): Bytes {
      match this
      case Shared(bytes) => bytes
      case Owned(vec) => vec.bytes
    }
  }

  datatype ReaderSegment = ReaderSegment(ordinal: nat, handle: Handle)

  /** The buffers and the segment handle that one reader keeps between loads. */
  class BlockReader {
    var ciphertext: Vec
    var plaintext: Vec
    var segment: Option<ReaderSegment>

    constructor ()
      ensures ciphertext == NO_VEC && plaintext == NO_VEC && segment == None
    {
      ciphertext, plaintext, segment := NO_VEC, NO_VEC, None;
    }

    method PrepareCiphertext(len: nat)
      modifies this
      ensures |ciphertext.bytes| == len && segment == old(segment)
    {
      if ciphertext.capacity < len && plaintext.capacity >= len {
        ciphertext, plaintext := plaintext, ciphertext;
      }
      ciphertext := ciphertext.Resize(len);
    }

    method TakeRaw() returns (v: Vec)
      modifies this
      ensures v == old(ciphertext) && segment == old(segment)
    {
      v := ciphertext;
      ciphertext := NO_VEC;
    }

    method PreparePlaintext(len: nat)
      modifies this
      ensures |plaintext.bytes| == len && segment == old(segment)
    {
      plaintext := plaintext.Resize(len);
    }

    method TakePlaintext() returns (v: Vec)
      modifies this
      ensures v == old(plaintext) && segment == old(segment)
    {
      v := plaintext;
      plaintext := NO_VEC;
    }

    /** Keeps the emptied buffer if it has more room than the one there is. */
    method Recycle(data: BlockData)
      modifies this
      ensures segment == old(segment) && ciphertext == old(ciphertext)
      ensures plaintext == if data.Owned? && data.vec.capacity > old(plaintext.capacity) then Vec([], data.vec.capacity)
                           else old(plaintext)
    {
      if data.Shared? {
        return;
      }
      var bytes := data.vec.Cleared();
      if bytes.capacity > plaintext.capacity {
        plaintext := bytes;
      }
    }
  }

  // -------------------------------------------------------------------- hypotheses

  datatype BlockKey = BlockKey(segment: nat, block: nat)

  datatype BlockAad = BlockAad(uid: Bytes, ordinal: nat, codec: Codec, storedLen: nat, plainLen: nat)

  datatype BlockCrypto = BlockCrypto(open: (BlockAad, Bytes) -> Option<Bytes>, inflate: Bytes -> Option<Bytes>,
                                     digest: Bytes -> Bytes)

  function KeyOf(r: BlockRef): BlockKey {
    BlockKey(r.segmentOrdinal, r.segmentBlockOrdinal)
  }

  /** What decoding opened bytes must give. */
  function Decoded(c: BlockCrypto, codec: Codec, stored: Bytes, expectedLen: nat): Option<Bytes> {
    match codec
    case Raw => if |stored| == expectedLen then Some(stored) else None
    case Zstd =>
      match c.inflate(stored)
      case None => None
      case Some(plain) => if |plain| == expectedLen then Some(plain) else None
  }

  function AadOf(segments: seq<SegmentRecord>, r: BlockRef): BlockAad
    requires r.segmentOrdinal < |segments|
  {
    BlockAad(segments[r.segmentOrdinal].uid, r.segmentBlockOrdinal, r.codec, r.storedLen, r.plainLen)
  }

  /** The fixed facts about an installed release. `truth` is the plaintext of every block, `files` the
  bytes of every segment. */
  datatype Release = Release(segments: seq<SegmentRecord>, crypto: BlockCrypto, files: map<Bytes, Bytes>,
                             ghost truth: map<BlockKey, Bytes>, blocks: seq<BlockRef>, projectId: Bytes,
                             pageCrypto: PageCrypto, directory: seq<PageRecord>, region: Bytes, mapCount: nat)
  {
    /** The signed digest singles out bytes that open and decode to the true plaintext: collision
    resistance of the digest with the correctness of sealing and compression. */
    ghost predicate Authentic(r: BlockRef) {
      && r.segmentOrdinal < |segments| && KeyOf(r) in truth && |truth[KeyOf(r)]| == r.plainLen > 0
      && (forall b: Bytes :: |b| == r.storedLen && crypto.digest(b) == r.cipherDigest ==>
            && crypto.open(AadOf(segments, r), b).Some?
            && Decoded(crypto, r.codec, crypto.open(AadOf(segments, r), b).value, r.plainLen) == Some(truth[KeyOf(r)]))
    }

    /** The block lies where its reference says, inside an installed segment. */
    ghost predicate Installed(r: BlockRef) {
      && r.segmentOrdinal < |segments| && r.segmentBlockOrdinal < segments[r.segmentOrdinal].blockCount
      && SEGMENT_HEADER_SIZE <= r.physicalOffset
      && r.physicalOffset + r.storedLen <= segments[r.segmentOrdinal].fileLen < U64_LIMIT
      && SegmentInstalled(r.segmentOrdinal)
      && crypto.digest(files[segments[r.segmentOrdinal].id][r.physicalOffset..r.physicalOffset + r.storedLen])
             == r.cipherDigest
    }

    /** The header every segment file must start with. */
    function ExpectedHeader(ordinal: nat): SegmentHeader
      requires ordinal < |segments|
    {
      var s := segments[ordinal];
      SegmentHeader(projectId, s.uid, s.salt, s.noncePrefix, s.blockCount, s.payloadLen, s.fileLen)
    }

    ghost predicate SegmentInstalled(ordinal: nat)
      requires ordinal < |segments|
    {
      var s := segments[ordinal];
      && s.id in files && |files[s.id]| == s.fileLen >= SEGMENT_HEADER_SIZE
      && ParseSegmentHeader(files[s.id][..SEGMENT_HEADER_SIZE]) == Some(ExpectedHeader(ordinal))
    }

    /** The signed page digest singles out the stored page. */
    ghost predicate PageAuthentic(i: nat) {
      i < |directory| ==>
        && directory[i].relativeOffset + directory[i].storedLen <= |region|
        && (forall b: Bytes :: |b| == directory[i].storedLen && pageCrypto.digest(b) == directory[i].digest ==>
              b == region[directory[i].relativeOffset..directory[i].relativeOffset + directory[i].storedLen])
    }

    ghost predicate Sound() {
      && (forall i :: 0 <= i < |blocks| ==> Authentic(blocks[i]) && Installed(blocks[i]))
      && (forall i :: 0 <= i < |directory| ==> PageAuthentic(i))
      && (forall i :: 0 <= i < |blocks| ==>
          FindBlock(pageCrypto, directory, region, |blocks|, mapCount, i) == Some(blocks[i]))
      && |blocks| <= MAX_BLOCKS
    }
  }

  // ----------------------------------------------------------------- the package

  datatype Budget = Budget(pageBytes: nat, blockBytes: nat, prefetchBytes: nat, idleHandles: nat, probationEntries: nat)

  /** Every cached block is the true plaintext of its key. */
  ghost predicate TrueBlocks(contents: map<BlockKey, Bytes>, truth: map<BlockKey, Bytes>) {
    forall k :: k in contents ==> k in truth && contents[k] == truth[k]
  }

  ghost predicate TruePages(contents: map<nat, Bytes>, r: Release) {
    forall i :: i in contents ==>
      i < |r.directory| && LoadPage(r.pageCrypto, r.directory, r.region, i, r.directory[i].kind) == Some(contents[i])
  }

  ghost predicate CacheSound<K(!new)>(s: ClockCaches.State<K>) {
    ClockCaches.Valid(s) && s.budget < USIZE_MAX
  }

  ghost predicate BlocksSound(s: ClockCaches.State<BlockKey>, truth: map<BlockKey, Bytes>) {
    CacheSound(s) && TrueBlocks(ClockCaches.Contents(s), truth)
  }

  ghost predicate PagesSound(s: ClockCaches.State<nat>, r: Release) {
    CacheSound(s) && TruePages(ClockCaches.Contents(s), r)
  }

  lemma EmptyCachesSound(pageBytes: nat, blockBytes: nat, r: Release)
    requires pageBytes < USIZE_MAX && blockBytes < USIZE_MAX
    ensures PagesSound(ClockCaches.Empty<nat>(pageBytes), r)
    ensures BlocksSound(ClockCaches.Empty<BlockKey>(blockBytes), r.truth)
    ensures CacheEmpty(ClockCaches.Empty<BlockKey>(blockBytes))
  {
    ClockCaches.EmptyValid<nat>(pageBytes);
    ClockCaches.EmptyValid<BlockKey>(blockBytes);
  }

  lemma InsertKeepsBlocks(s: ClockCaches.State<BlockKey>, key: BlockKey, value: Bytes, truth: map<BlockKey, Bytes>)
    requires BlocksSound(s, truth) && key in truth && truth[key] == value
    ensures ClockCaches.Valid(s) && ClockCaches.NoWrap(s, |value|)
    ensures BlocksSound(ClockCaches.Inserted(s, key, value), truth)
  {
    hide ClockCaches.ValidBooks, ClockCaches.Contents, ClockCaches.Inserted;
    ClockCaches.InsertKeepsValues(s, key, value);
  }

  lemma InsertKeepsPages(s: ClockCaches.State<nat>, key: nat, value: Bytes, r: Release)
    requires PagesSound(s, r) && key < |r.directory|
    requires LoadPage(r.pageCrypto, r.directory, r.region, key, r.directory[key].kind) == Some(value)
    ensures ClockCaches.Valid(s) && ClockCaches.NoWrap(s, |value|)
    ensures PagesSound(ClockCaches.Inserted(s, key, value), r)
  {
    hide ClockCaches.ValidBooks, ClockCaches.Contents, ClockCaches.Inserted, LoadPage;
    ClockCaches.InsertKeepsValues(s, key, value);
  }

  lemma TouchKeepsBlocks(s: ClockCaches.State<BlockKey>, key: BlockKey, truth: map<BlockKey, Bytes>)
    requires BlocksSound(s, truth)
    ensures ClockCaches.Valid(s) && BlocksSound(ClockCaches.Touch(s, key), truth)
    ensures ClockCaches.Contents(ClockCaches.Touch(s, key)) == ClockCaches.Contents(s)
    ensures key in ClockCaches.Contents(s) ==> key in truth && ClockCaches.Contents(s)[key] == truth[key]
  {
    hide ClockCaches.ValidBooks, ClockCaches.Contents, ClockCaches.Touch;
    ClockCaches.TouchExact(s, key);
  }

  lemma TouchKeepsPages(s: ClockCaches.State<nat>, key: nat, r: Release)
    requires PagesSound(s, r)
    ensures ClockCaches.Valid(s) && PagesSound(ClockCaches.Touch(s, key), r)
    ensures key in ClockCaches.Contents(s) ==>
              && key < |r.directory|
              && LoadPage(r.pageCrypto, r.directory, r.region, key, r.directory[key].kind)
                     == Some(ClockCaches.Contents(s)[key])
  {
    hide ClockCaches.ValidBooks, ClockCaches.Contents, ClockCaches.Touch, LoadPage;
    ClockCaches.TouchExact(s, key);
  }

  /** A cache that holds nothing. */
  ghost predicate CacheEmpty(s: ClockCaches.State<BlockKey>) {
    ClockCaches.ValidBooks(s) ==> ClockCaches.Contents(s) == map[]
  }

  /** The blocks that a cache holds. */
  ghost function Held(s: ClockCaches.State<BlockKey>): map<BlockKey, Bytes> {
    if ClockCaches.ValidBooks(s) then ClockCaches.Contents(s) else map[]
  }

  ghost predicate CacheHas(s: ClockCaches.State<BlockKey>, key: BlockKey) {
    key in Held(s)
  }

  /** What a lookup in a sound cache answers, and that it takes nothing out. */
  lemma LookupExact(s: ClockCaches.State<BlockKey>, key: BlockKey, truth: map<BlockKey, Bytes>)
    requires BlocksSound(s, truth)
    ensures ClockCaches.Valid(s) && ClockCaches.ValidBooks(s) && (key in ClockCaches.Contents(s) <==> CacheHas(s, key))
    ensures Held(ClockCaches.Touch(s, key)) == Held(s)
    ensures CacheEmpty(s) ==> !CacheHas(s, key)
  {
    hide ClockCaches.Contents, ClockCaches.Touch;
    TouchKeepsBlocks(s, key, truth);
  }

  /** A value that fits is in the cache after its insertion. */
  lemma InsertMakesPresent(s: ClockCaches.State<BlockKey>, key: BlockKey, value: Bytes, truth: map<BlockKey, Bytes>)
    requires BlocksSound(s, truth) && key in truth && truth[key] == value
    ensures ClockCaches.Valid(s) && ClockCaches.NoWrap(s, |value|)
    ensures s.budget > 0 && |value| <= s.budget ==> CacheHas(ClockCaches.Inserted(s, key, value), key)
  {
    hide ClockCaches.MakeRoom, ClockCaches.Inserted, ClockCaches.Total, ClockCaches.VacantSound;
    var kept := ClockCaches.InsertExact(s, key, value);
  }

  /** The same of the pages. */
  ghost function PagesHeld(s: ClockCaches.State<nat>): map<nat, Bytes> {
    if ClockCaches.ValidBooks(s) then ClockCaches.Contents(s) else map[]
  }

  lemma PageLookupExact(s: ClockCaches.State<nat>, index: nat, r: Release)
    requires PagesSound(s, r)
    ensures ClockCaches.Valid(s) && ClockCaches.ValidBooks(s)
    ensures index in ClockCaches.Contents(s) <==> index in PagesHeld(s)
    ensures PagesHeld(ClockCaches.Touch(s, index)) == PagesHeld(s)
  {
    hide ClockCaches.Contents, ClockCaches.Touch;
    ClockCaches.TouchExact(s, index);
  }

  lemma InsertMakesPagePresent(s: ClockCaches.State<nat>, index: nat, value: Bytes, r: Release)
    requires PagesSound(s, r) && index < |r.directory|
    requires LoadPage(r.pageCrypto, r.directory, r.region, index, r.directory[index].kind) == Some(value)
    ensures ClockCaches.Valid(s) && ClockCaches.NoWrap(s, |value|)
    ensures s.budget > 0 && |value| <= s.budget ==> index in PagesHeld(ClockCaches.Inserted(s, index, value))
  {
    hide ClockCaches.MakeRoom, ClockCaches.Inserted, ClockCaches.Total, ClockCaches.VacantSound;
    var kept := ClockCaches.InsertExact(s, index, value);
  }

  /** A reader's kept handle belongs to its ordinal. */
  ghost predicate ReaderSound(segment: Option<ReaderSegment>, r: Release) {
    segment.Some? ==>
      segment.value.ordinal < |r.segments| && segment.value.handle == Handle(r.segments[segment.value.ordinal].id)
  }

  /** An open package with its shared caches. `faults` counts storage accesses that failed or returned
  bytes other than the stored ones, `accesses` all of them; `loads` counts block loads, and
  `offered` lists the blocks that prefetching has taken up. */
  class Package {
    const release: Release
    const budget: Budget
    const pageCache: ClockCaches.Cache<nat>
    const blockCache: ClockCaches.Cache<BlockKey>
    const prefetchCache: ClockCaches.Cache<BlockKey>
    const handles: HandleCache
    var prefetchPopulated: bool
    var probation: seq<BlockKey>
    ghost var faults: nat
    ghost var loads: nat
    ghost var accesses: nat
    ghost var offered: seq<BlockRef>

    ghost function Repr(): set<object> {
      {this, pageCache, blockCache, prefetchCache, handles}
    }

    ghost predicate Valid()
      reads Repr()
    {
      && release.Sound() && blockCache != prefetchCache
      && pageCache.budget == budget.pageBytes && blockCache.budget == budget.blockBytes
      && prefetchCache.budget == budget.prefetchBytes
      && PagesSound(pageCache.Model(), release)
      && BlocksSound(blockCache.Model(), release.truth)
      && BlocksSound(prefetchCache.Model(), release.truth)
      && (!CacheEmpty(prefetchCache.Model()) ==> prefetchPopulated)
      && handles.Valid()
      && |probation| <= budget.probationEntries
    }

    constructor (release: Release, budget: Budget)
      requires release.Sound()
      requires budget.pageBytes < USIZE_MAX && budget.blockBytes < USIZE_MAX && budget.prefetchBytes < USIZE_MAX
      ensures Valid() && fresh(Repr()) && this.release == release && this.budget == budget
      ensures faults == 0 && loads == 0 && accesses == 0 && offered == [] && probation == []
    {
      hide PagesSound, BlocksSound, CacheEmpty, ClockCaches.Valid, ClockCaches.Contents, Release.Sound;
      this.release, this.budget := release, budget;
      pageCache := new ClockCaches.Cache(budget.pageBytes);
      blockCache := new ClockCaches.Cache(budget.blockBytes);
      prefetchCache := new ClockCaches.Cache(budget.prefetchBytes);
      handles := new HandleCache(budget.idleHandles);
      prefetchPopulated, probation, faults, loads, accesses, offered := false, [], 0, 0, 0, [];
      new;
      EmptyCachesSound(budget.pageBytes, budget.blockBytes, release);
      EmptyCachesSound(budget.pageBytes, budget.prefetchBytes, release);
    }

    /** Storage is not trusted: a read may fail, or return any bytes of the asked length. */
    method ReadStored(stored: Bytes) returns (r: Result<Bytes>)
      modifies this`faults, this`accesses
      ensures accesses == old(accesses) + 1
      ensures r.Ok? ==> |r.value| == |stored|
      ensures faults >= old(faults)
      ensures r == Ok(stored) <==> faults == old(faults)
    {
      accesses := accesses + 1;
      var fails: bool := *;
      var found: Bytes := *;
      if fails || |found| != |stored| {
        faults := faults + 1;
        return Err(Io);
      }
      if found != stored {
        faults := faults + 1;
      }
      return Ok(found);
    }

    /** A metadata page through the page cache. The page kind is checked on a miss only. */
    method LoadMetadata(index: nat, kind: PageKind) returns (r: Result<Bytes>)
      requires Valid() && index < |release.directory| && release.directory[index].kind == kind
      requires LoadPage(release.pageCrypto, release.directory, release.region, index, kind).Some?
      modifies this`faults, this`accesses, pageCache
      ensures Valid() && faults >= old(faults) && loads == old(loads)
      ensures r.Ok? ==> LoadPage(release.pageCrypto, release.directory, release.region, index, kind) == Some(r.value)
      ensures r.Err? ==> faults > old(faults)
      ensures old(PageKept(index)) ==> r.Ok? && accesses == old(accesses) && PageKept(index)
      ensures r.Ok? && 0 < budget.pageBytes && |r.value| <= budget.pageBytes ==> PageKept(index)
    {
      hide PagesSound, BlocksSound, ClockCaches.Valid, ClockCaches.ValidBooks, ClockCaches.Contents, ClockCaches.Touch,
           ClockCaches.Inserted, ClockCaches.NoWrap, LruSound, CacheEmpty, OpenPage, PagesHeld;
      TouchKeepsPages(pageCache.Model(), index, release);
      PageLookupExact(pageCache.Model(), index, release);
      var cached := pageCache.Get(index);
      if cached.Some? {
        return Ok(cached.value);
      }
      var page := release.directory[index];
      if page.kind != kind {
        return Err(InvalidFormat);
      }
      assert release.PageAuthentic(index);
      var stored := release.region[page.relativeOffset..page.relativeOffset + page.storedLen];
      var cipher := ReadStored(stored);
      if cipher.Err? {
        return Err(Io);
      }
      var plain := OpenPage(release.pageCrypto, page, cipher.value);
      OpenChecksDigest(release.pageCrypto, page, cipher.value);
      if plain.None? {
        return Err(Authentication);
      }
      assert cipher.value == stored;
      InsertKeepsPages(pageCache.Model(), index, plain.value, release);
      InsertMakesPagePresent(pageCache.Model(), index, plain.value, release);
      pageCache.Insert(index, plain.value);
      return Ok(plain.value);
    }

    /** The page cache has the page. */
    ghost predicate PageKept(index: nat)
      reads pageCache
    {
      index in PagesHeld(pageCache.Model())
    }

    /** The `i`-th block reference of the release. */
    method FindReference(i: nat) returns (r: Result<BlockRef>)
      requires Valid() && i < |release.blocks|
      modifies this`faults, this`accesses, pageCache
      ensures Valid() && faults >= old(faults) && loads == old(loads)
      ensures r.Ok? ==> r.value == release.blocks[i]
      ensures r.Err? ==> faults > old(faults)
      ensures old(PageKept(i / BLOCKS_PER_MAP_PAGE)) ==> r.Ok? && accesses == old(accesses)
    {
      hide PagesSound, BlocksSound, LruSound, CacheEmpty, LoadPage, RecordCount, MapPageRecord, PageKept;
      assert FindBlock(release.pageCrypto, release.directory, release.region, |release.blocks|, release.mapCount, i)
          == Some(release.blocks[i]);
      var page := i / BLOCKS_PER_MAP_PAGE;
      LoadedKind(release.pageCrypto, release.directory, release.region, page, BlockMap);
      var bytes := LoadMetadata(page, BlockMap);
      if bytes.Err? {
        return Err(bytes.error);
      }
      var first := page * BLOCKS_PER_MAP_PAGE;
      var count := RecordCount(bytes.value, MAP_PAGE_MAGIC, BLOCK_REF_SIZE, first);
      if count.None? || i - first >= count.value {
        return Err(InvalidFormat);
      }
      var record := MapPageRecord(bytes.value, i - first);
      if record.None? {
        return Err(InvalidFormat);
      }
      return Ok(record.value);
    }

    /** A segment handle through the handle cache; a file is accepted only with the catalog's header. */
    method OpenSegment(ordinal: nat) returns (r: Result<Handle>)
      requires Valid() && ordinal < |release.segments| && release.SegmentInstalled(ordinal)
      modifies this`faults, this`accesses, handles
      ensures Valid() && faults >= old(faults) && loads == old(loads)
      ensures r.Ok? ==> r.value == Handle(release.segments[ordinal].id)
      ensures r.Ok? && handles.capacity > 0 ==> release.segments[ordinal].id in handles.values
      ensures r.Err? ==> faults > old(faults)
      ensures release.segments[ordinal].id in old(handles.values) ==> r.Ok? && accesses == old(accesses)
      ensures r.Ok? ==> faults == old(faults)
    {
      hide PagesSound, BlocksSound, CacheEmpty, LruSound, ParseSegmentHeader;
      var id := release.segments[ordinal].id;
      HandleFor(handles.values, handles.order, id);
      var cached := handles.Get(id);
      if cached.Some? {
        return Ok(cached.value);
      }
      var bytes := ReadStored(release.files[id][..SEGMENT_HEADER_SIZE]);
      if bytes.Err? {
        return Err(Io);
      }
      if ParseSegmentHeader(bytes.value) != Some(release.ExpectedHeader(ordinal)) {
        return Err(InvalidFormat);
      }
      SameHeader(bytes.value, release.files[id][..SEGMENT_HEADER_SIZE]);
      handles.Insert(id, Handle(id));
      return Ok(Handle(id));
    }

    /** Admits a Normal block to the cache on its second access among the tracked ones, which are forgotten
    oldest first. */
    method SecondNormalAccess(key: BlockKey) returns (admit: bool)
      requires |probation| <= budget.probationEntries
      modifies this`probation
      ensures |probation| <= budget.probationEntries
      ensures admit <==> key in old(probation)
      ensures admit ==> exists p :: 0 <= p < |old(probation)| && old(probation)[p] == key
                                    && probation == old(probation)[..p] + old(probation)[p + 1..]
      ensures !admit && budget.probationEntries == 0 ==> probation == old(probation)
      ensures !admit && budget.probationEntries > 0 ==>
                probation == old(probation)[Max(0, |old(probation)| + 1 - budget.probationEntries)..] + [key]
    {
      var capacity := budget.probationEntries;
      if capacity == 0 {
        return false;
      }
      var position := 0;
      while position < |probation|
        invariant position <= |probation| && key !in probation[..position]
      {
        if probation[position] == key {
          probation := probation[..position] + probation[position + 1..];
          return true;
        }
        position := position + 1;
      }
      assert probation[..|probation|] == probation;
      ghost var dropped := 0;
      while |probation| >= capacity
        invariant dropped <= |old(probation)| && probation == old(probation)[dropped..] && key !in old(probation)
        invariant dropped == 0 || |probation| + 1 >= capacity
      {
        probation := probation[1..];
        dropped := dropped + 1;
      }
      probation := probation + [key];
      return false;
    }

    /** One block, from the caches or verified from storage. Whatever the history, whatever the storage
    answers, a successful load is the true plaintext. */
    method LoadBlock(reference: BlockRef, access: Access, reader: BlockReader) returns (r: Result<BlockData>)
      requires Valid() && release.Authentic(reference) && release.Installed(reference)
      requires ReaderSound(reader.segment, release)
      modifies Repr(), reader
      ensures Valid() && ReaderSound(reader.segment, release)
      ensures faults >= old(faults) && loads == old(loads) + 1 && offered == old(offered)
      ensures r.Ok? ==> r.value.Content() == release.truth[KeyOf(reference)]
      ensures r.Err? ==> faults > old(faults)
      ensures !access.Hot? && !access.Normal? ==> blockCache.Model() == old(blockCache.Model())
      ensures r.Ok? && access.Hot? && reference.plainLen <= budget.blockBytes ==> Cached(KeyOf(reference))
      ensures Held(prefetchCache.Model()) == old(Held(prefetchCache.Model()))
      ensures old(Serves(KeyOf(reference), access)) ==>
                r.Ok? && accesses == old(accesses) && Held(blockCache.Model()) == old(Held(blockCache.Model()))
      ensures r.Err? || !access.Normal? || old(Serves(KeyOf(reference), access)) ==> probation == old(probation)
      ensures r.Ok? && access.Normal? && !old(Serves(KeyOf(reference), access))
              && KeyOf(reference) in old(probation) ==>
                && (reference.plainLen <= budget.blockBytes ==> CacheHas(blockCache.Model(), KeyOf(reference)))
                && exists p :: 0 <= p < |old(probation)| && old(probation)[p] == KeyOf(reference)
                               && probation == old(probation)[..p] + old(probation)[p + 1..]
      ensures r.Ok? && access.Normal? && !old(Serves(KeyOf(reference), access))
              && KeyOf(reference) !in old(probation) ==>
                && Held(blockCache.Model()) == old(Held(blockCache.Model()))
                && probation == if budget.probationEntries == 0 then old(probation) else
                     old(probation)[Max(0, |old(probation)| + 1 - budget.probationEntries)..] + [KeyOf(reference)]
    {
      hide PagesSound, BlocksSound, CacheEmpty, LruSound, Release.Sound, ClockCaches.Valid, ClockCaches.ValidBooks,
           ClockCaches.Contents, ClockCaches.Touch, ClockCaches.Inserted, ClockCaches.NoWrap, ParseSegmentHeader,
           Held;
      NotEmptyBlock(release, reference);
      hide Release.Authentic, Release.Installed;
      loads := loads + 1;
      var key := KeyOf(reference);
      AuthenticLength(release, reference);
      var cached := CachedBlock(key, access);
      if cached.Some? {
        if |cached.value| != reference.plainLen {
          return Err(InvalidFormat);
        }
        return Ok(Shared(cached.value));
      }
      var plaintext := ReadBlock(reference, reader);
      if plaintext.Err? {
        return Err(plaintext.error);
      }
      var admit := access.Hot?;
      if access.Normal? {
        admit := SecondNormalAccess(key);
      }
      if admit {
        InsertKeepsBlocks(blockCache.Model(), key, plaintext.value.bytes, release.truth);
        InsertMakesPresent(blockCache.Model(), key, plaintext.value.bytes, release.truth);
        blockCache.Insert(key, plaintext.value.bytes);
        return Ok(Shared(plaintext.value.bytes));
      }
      return Ok(Owned(plaintext.value));
    }

    /** A load of this kind finds the block in a cache that it looks into. */
    ghost predicate Serves(key: BlockKey, access: Access)
      reads this, blockCache, prefetchCache
    {
      ((access.Hot? || access.Normal?) && CacheHas(blockCache.Model(), key)) || CacheHas(prefetchCache.Model(), key)
    }

    /** One of the caches has the block. */
    ghost predicate Cached(key: BlockKey)
      reads this, blockCache, prefetchCache
    {
      CacheHas(blockCache.Model(), key) || CacheHas(prefetchCache.Model(), key)
    }

    /** The block cache for Hot and Normal blocks, then the prefetch cache if the hint says it may help. */
    method CachedBlock(key: BlockKey, access: Access) returns (r: Option<Bytes>)
      requires Valid() && key in release.truth
      modifies blockCache, prefetchCache
      ensures Valid()
      ensures r.Some? ==> r.value == release.truth[key] && Cached(key)
      ensures r.Some? <==>
                || ((access.Hot? || access.Normal?) && CacheHas(old(blockCache.Model()), key))
                || CacheHas(old(prefetchCache.Model()), key)
      ensures Held(blockCache.Model()) == old(Held(blockCache.Model()))
      ensures Held(prefetchCache.Model()) == old(Held(prefetchCache.Model()))
      ensures !access.Hot? && !access.Normal? ==> blockCache.Model() == old(blockCache.Model())
    {
      hide PagesSound, BlocksSound, CacheEmpty, LruSound, Release.Sound, ClockCaches.Valid, ClockCaches.ValidBooks,
           ClockCaches.Contents, ClockCaches.Touch, Held;
      LookupExact(blockCache.Model(), key, release.truth);
      LookupExact(prefetchCache.Model(), key, release.truth);
      if access.Hot? || access.Normal? {
        TouchKeepsBlocks(blockCache.Model(), key, release.truth);
        r := blockCache.Get(key);
        if r.Some? {
          return;
        }
      }
      if prefetchPopulated {
        TouchKeepsBlocks(prefetchCache.Model(), key, release.truth);
        r := prefetchCache.Get(key);
        return;
      }
      return None;
    }

    /** The storage side of a load: bounds, handle, ciphertext, digest, opening, decoding. */
    method ReadBlock(reference: BlockRef, reader: BlockReader) returns (r: Result<Vec>)
      requires Valid() && release.Authentic(reference) && release.Installed(reference)
      requires ReaderSound(reader.segment, release)
      modifies this`faults, this`accesses, handles, reader
      ensures Valid() && ReaderSound(reader.segment, release)
      ensures faults >= old(faults) && loads == old(loads)
      ensures r.Ok? ==> r.value.bytes == release.truth[KeyOf(reference)]
      ensures r.Err? ==> faults > old(faults)
    {
      hide PagesSound, BlocksSound, CacheEmpty, LruSound, Release.Sound, ParseSegmentHeader, Decoded;
      var ordinal := reference.segmentOrdinal;
      var segment := release.segments[ordinal];
      if reference.segmentBlockOrdinal >= segment.blockCount {
        return Err(InvalidFormat);
      }
      var storedEnd := reference.physicalOffset + reference.storedLen;
      if storedEnd >= U64_LIMIT || reference.physicalOffset < SEGMENT_HEADER_SIZE || storedEnd > segment.fileLen {
        return Err(InvalidFormat);
      }
      var handle := SegmentHandle(ordinal, reader);
      if handle.Err? {
        return Err(handle.error);
      }
      reader.PrepareCiphertext(reference.storedLen);
      var stored := release.files[handle.value.id][reference.physicalOffset..storedEnd];
      var bytes := ReadStored(stored);
      if bytes.Err? {
        var partial: Bytes := *;
        reader.ciphertext := reader.ciphertext.(bytes := partial);
        return Err(Io);
      }
      reader.ciphertext := reader.ciphertext.(bytes := bytes.value);
      if release.crypto.digest(reader.ciphertext.bytes) != reference.cipherDigest {
        return Err(Authentication);
      }
      var encoded := release.crypto.open(AadOf(release.segments, reference), reader.ciphertext.bytes);
      if encoded.None? {
        return Err(Authentication);
      }
      reader.ciphertext := reader.ciphertext.(bytes := encoded.value);
      r := DecodeBuffered(reference.codec, reader, reference.plainLen);
    }

    method SegmentHandle(ordinal: nat, reader: BlockReader) returns (r: Result<Handle>)
      requires Valid() && ordinal < |release.segments| && release.SegmentInstalled(ordinal)
      requires ReaderSound(reader.segment, release)
      modifies this`faults, this`accesses, handles, reader
      ensures Valid() && ReaderSound(reader.segment, release)
      ensures faults >= old(faults) && loads == old(loads)
      ensures r.Ok? ==> r.value == Handle(release.segments[ordinal].id)
      ensures r.Err? ==> faults > old(faults)
      ensures r.Ok? ==> reader.segment == Some(ReaderSegment(ordinal, r.value))
      ensures old(reader.segment).Some? && old(reader.segment).value.ordinal == ordinal ==>
                r.Ok? && accesses == old(accesses)
      ensures release.segments[ordinal].id in old(handles.values) ==> r.Ok? && accesses == old(accesses)
    {
      hide PagesSound, BlocksSound, CacheEmpty, LruSound, Release.Sound, ParseSegmentHeader;
      if reader.segment.Some? && reader.segment.value.ordinal == ordinal {
        return Ok(reader.segment.value.handle);
      }
      r := OpenSegment(ordinal);
      if r.Ok? {
        reader.segment := Some(ReaderSegment(ordinal, r.value));
      }
    }

    /** Decodes what the ciphertext buffer holds. The plaintext buffer is recycled without being cleared:
    only a decode that fills it completely is returned. */
    method DecodeBuffered(codec: Codec, reader: BlockReader, expectedLen: nat) returns (r: Result<Vec>)
      modifies reader
      ensures reader.segment == old(reader.segment)
      ensures match Decoded(release.crypto, codec, old(reader.ciphertext.bytes), expectedLen)
              case None => r.Err?
              case Some(plain) => r.Ok? && r.value.bytes == plain
    {
      if codec.Raw? {
        if |reader.ciphertext.bytes| != expectedLen {
          return Err(InvalidFormat);
        }
        var raw := reader.TakeRaw();
        return Ok(raw);
      }
      var stored := reader.TakeRaw();
      reader.PreparePlaintext(expectedLen);
      var written, output := Decompress(stored.bytes, reader.plaintext.bytes);
      reader.plaintext := reader.plaintext.(bytes := output);
      reader.ciphertext := stored;
      if written.None? || written.value != expectedLen {
        return Err(InvalidFormat);
      }
      var plain := reader.TakePlaintext();
      return Ok(plain);
    }

    /** Decompression into a buffer of fixed length: bytes beyond what is written keep their old value. */
    method Decompress(stored: Bytes, buffer: Bytes) returns (written: Option<nat>, output: Bytes)
      ensures |output| == |buffer|
      ensures match release.crypto.inflate(stored)
              case None => written == None
              case Some(plain) =>
                if |plain| > |buffer| then written == None
                else written == Some(|plain|) && output == plain + buffer[|plain|..]
    {
      var plain := release.crypto.inflate(stored);
      if plain.None? || |plain.value| > |buffer| {
        return None, buffer;
      }
      return Some(|plain.value|), plain.value + buffer[|plain.value|..];
    }

    /** Puts one block of a prefetched range into the prefetch cache, unless a cache already has it. */
    method PrefetchBlock(reference: BlockRef, access: Access, reader: BlockReader) returns (r: Result<()>)
      requires Valid() && release.Authentic(reference) && release.Installed(reference)
      requires ReaderSound(reader.segment, release)
      modifies Repr(), reader
      ensures Valid() && ReaderSound(reader.segment, release)
      ensures faults >= old(faults)
      ensures r.Err? ==> faults > old(faults)
      ensures r.Ok? && reference.plainLen <= budget.prefetchBytes ==> Cached(KeyOf(reference))
      ensures offered == old(offered) + [reference]
    {
      hide PagesSound, BlocksSound, CacheEmpty, LruSound, Release.Sound, ClockCaches.Valid, ClockCaches.ValidBooks,
           ClockCaches.Contents, ClockCaches.Touch, ClockCaches.Inserted, ClockCaches.NoWrap, ParseSegmentHeader,
           Release.Authentic, Release.Installed, Held;
      AuthenticLength(release, reference);
      NotEmptyBlock(release, reference);
      offered := offered + [reference];
      if budget.prefetchBytes == 0 || reference.plainLen > budget.prefetchBytes {
        return Ok(());
      }
      var key := KeyOf(reference);
      LookupExact(blockCache.Model(), key, release.truth);
      LookupExact(prefetchCache.Model(), key, release.truth);
      TouchKeepsBlocks(blockCache.Model(), key, release.truth);
      var cached := blockCache.Get(key);
      if cached.Some? {
        return Ok(());
      }
      if prefetchPopulated {
        TouchKeepsBlocks(prefetchCache.Model(), key, release.truth);
        cached := prefetchCache.Get(key);
        if cached.Some? {
          return Ok(());
        }
      }
      var plaintext := LoadBlock(reference, access, reader);
      if plaintext.Err? {
        return Err(plaintext.error);
      }
      KeepPrefetched(key, plaintext.value.Content());
      return Ok(());
    }

    /** Keeps a prefetched block unless loading it has put it into the block cache. */
    method KeepPrefetched(key: BlockKey, plaintext: Bytes)
      requires Valid() && key in release.truth && release.truth[key] == plaintext && budget.prefetchBytes > 0
      modifies blockCache, prefetchCache, this`prefetchPopulated
      ensures Valid() && (|plaintext| <= budget.prefetchBytes ==> Cached(key))
    {
      hide PagesSound, BlocksSound, CacheEmpty, LruSound, Release.Sound, ClockCaches.Valid, ClockCaches.ValidBooks,
           ClockCaches.Contents, ClockCaches.Touch, ClockCaches.Inserted, ClockCaches.NoWrap, Held;
      LookupExact(blockCache.Model(), key, release.truth);
      TouchKeepsBlocks(blockCache.Model(), key, release.truth);
      var cached := blockCache.Get(key);
      if cached.None? {
        InsertMakesPresent(prefetchCache.Model(), key, plaintext, release.truth);
        InsertKeepsBlocks(prefetchCache.Model(), key, plaintext, release.truth);
        prefetchCache.Insert(key, plaintext);
        prefetchPopulated := true;
      }
    }

    /** Releases everything that can be rebuilt. */
    method Trim()
      requires Valid()
      modifies Repr()
      ensures Valid() && faults == old(faults) && loads == old(loads) && accesses == old(accesses)
      ensures CacheEmpty(blockCache.Model()) && CacheEmpty(prefetchCache.Model()) && probation == []
      ensures pageCache.Model() == ClockCaches.Empty(old(pageCache.Model().budget))
      ensures handles.order == []
    {
      hide PagesSound, BlocksSound, LruSound, CacheEmpty;
      BudgetsKept(pageCache.Model(), blockCache.Model(), release);
      BudgetsKept(pageCache.Model(), prefetchCache.Model(), release);
      pageCache.Clear();
      blockCache.Clear();
      prefetchCache.Clear();
      prefetchPopulated := false;
      probation := [];
      handles.Clear();
      NoHandles();
    }
  }

  /** Three Normal loads of one block with nothing between them. Once two have succeeded a block that fits is found
  without touching storage. */
  method LoadThrice(package: Package, reference: BlockRef, reader: BlockReader)
    returns (first: Result<BlockData>, second: Result<BlockData>, third: Result<BlockData>, ghost before: nat)
    requires package.Valid() && package.release.Authentic(reference) && package.release.Installed(reference)
    requires ReaderSound(reader.segment, package.release)
    modifies package.Repr(), reader
    ensures package.Valid()
    ensures first.Ok? && second.Ok? && reference.plainLen <= package.budget.blockBytes
            && package.budget.probationEntries > 0 ==>
              && third.Ok? && third.value.Content() == package.release.truth[KeyOf(reference)]
              && package.accesses == before
  {
    hide Package.Valid, Held, ReaderSound, Release.Installed, Release.Authentic;
    first := package.LoadBlock(reference, Normal, reader);
    second := package.LoadBlock(reference, Normal, reader);
    before := package.accesses;
    third := package.LoadBlock(reference, Normal, reader);
  }

  lemma NotEmptyBlock(r: Release, reference: BlockRef)
    requires r.Authentic(reference)
    ensures reference.plainLen > 0
  {
  }

  lemma AuthenticLength(r: Release, reference: BlockRef)
    requires r.Authentic(reference)
    ensures reference.segmentOrdinal < |r.segments|
    ensures KeyOf(reference) in r.truth && |r.truth[KeyOf(reference)]| == reference.plainLen
  {
  }

  /** Only the header that was written is accepted as it. */
  lemma SameHeader(a: Bytes, b: Bytes)
    requires |a| == |b| == SEGMENT_HEADER_SIZE && ParseSegmentHeader(a).Some?
    requires ParseSegmentHeader(a) == ParseSegmentHeader(b)
    ensures a == b
  {
    hide ParseSegmentHeader, EncodeSegmentHeader;
    SegmentHeaderParseExact(a);
    SegmentHeaderParseExact(b);
    assert a[..SEGMENT_HEADER_SIZE] == a && b[..SEGMENT_HEADER_SIZE] == b;
  }

  lemma NoHandles()
    ensures LruSound(map[], [])
  {
  }

  lemma HandleFor(values: map<Bytes, Handle>, order: seq<Bytes>, id: Bytes)
    requires LruSound(values, order)
    ensures id in values ==> values[id] == Handle(id)
  {
  }

  lemma BudgetsKept(pages: ClockCaches.State<nat>, blocks: ClockCaches.State<BlockKey>, r: Release)
    requires PagesSound(pages, r) && BlocksSound(blocks, r.truth)
    ensures PagesSound(ClockCaches.Empty<nat>(pages.budget), r)
    ensures BlocksSound(ClockCaches.Empty<BlockKey>(blocks.budget), r.truth)
    ensures CacheEmpty(ClockCaches.Empty<BlockKey>(blocks.budget))
  {
    EmptyCachesSound(pages.budget, blocks.budget, r);
  }

  lemma OpenChecksDigest(c: PageCrypto, r: PageRecord, cipher: Bytes)
    ensures OpenPage(c, r, cipher).Some? ==> c.digest(cipher) == r.digest
  {
  }

  lemma LoadedKind(c: PageCrypto, directory: seq<PageRecord>, region: Bytes, page: nat, kind: PageKind)
    requires LoadPage(c, directory, region, page, kind).Some?
    ensures page < |directory| && directory[page].kind == kind
  {
  }
}
