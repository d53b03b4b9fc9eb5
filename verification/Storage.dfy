/** What a release costs on disk: retained, referenced and stranded bytes. */
module Storage {
  import opened Basics
  import opened Records
  import opened Pages
  import opened Compaction
  import opened Sources
  import opened SegmentStore

  datatype StorageStats = StorageStats(retained: nat, referenced: nat, stranded: nat)

  function FileTotal(segments: seq<SegmentRecord>): nat {
    if segments == [] then 0 else FileTotal(segments[..|segments| - 1]) + segments[|segments| - 1].fileLen
  }

  function PayloadTotal(segments: seq<SegmentRecord>): nat {
    if segments == [] then 0 else PayloadTotal(segments[..|segments| - 1]) + segments[|segments| - 1].payloadLen
  }

  lemma {:induction false} PrefixTotals(segments: seq<SegmentRecord>, k: nat)
    requires k <= |segments|
    ensures FileTotal(segments[..k]) <= FileTotal(segments) && PayloadTotal(segments[..k]) <= PayloadTotal(segments)
    decreases |segments|
  {
    if k < |segments| {
      PrefixTotals(segments[..|segments| - 1], k);
      assert segments[..|segments| - 1][..k] == segments[..k];
    } else {
      assert segments[..k] == segments;
    }
  }

  /** A physical block, for the sizes of the ledger. */
  function LedgerOf(b: BlockRef): Live {
    Live(b.segmentOrdinal, b.segmentBlockOrdinal, b.storedLen, 0)
  }

  ghost function Referenced(blocks: seq<BlockRef>): set<Live> {
    set b | b in blocks :: LedgerOf(b)
  }

  ghost predicate InSegments(segments: seq<SegmentRecord>, blocks: seq<BlockRef>) {
    forall b :: b in blocks ==>
        b.segmentOrdinal < |segments| && b.segmentBlockOrdinal < segments[b.segmentOrdinal].blockCount
  }

  /** Exactly when the statistics can be given. */
  ghost predicate LedgerOk(segments: seq<SegmentRecord>, blocks: seq<BlockRef>) {
    && FileTotal(segments) < U64_LIMIT && PayloadTotal(segments) < U64_LIMIT
    && InSegments(segments, blocks) && Consistent(Referenced(blocks))
    && SumLive(Referenced(blocks), Stored) <= PayloadTotal(segments)
  }

  ghost predicate Maps(unique: map<(nat, nat), nat>, live: set<Live>) {
    && (forall l :: l in live ==>
        (l.segment, l.block) in unique && unique[(l.segment, l.block)] == l.stored && l.plain == 0)
    && (forall k :: k in unique ==> Live(k.0, k.1, unique[k], 0) in live)
  }

  /** One entry for each physical block; fails on a block outside its segment or with two lengths. */
  method CollectUnique(segments: seq<SegmentRecord>, blocks: seq<BlockRef>) returns (r: Option<map<(nat, nat), nat>>)
    ensures r.Some? <==> InSegments(segments, blocks) && Consistent(Referenced(blocks))
    ensures r.Some? ==> Maps(r.value, Referenced(blocks))
  {
    var unique: map<(nat, nat), nat> := map[];
    for n := 0 to |blocks|
      invariant InSegments(segments, blocks[..n]) && Maps(unique, Referenced(blocks[..n]))
    {
      var b := blocks[n];
      assert b in blocks;
      if b.segmentOrdinal >= |segments| || b.segmentBlockOrdinal >= segments[b.segmentOrdinal].blockCount {
        return None;
      }
      var key := (b.segmentOrdinal, b.segmentBlockOrdinal);
      assert blocks[..n + 1] == blocks[..n] + [b];
      assert Referenced(blocks[..n + 1]) == Referenced(blocks[..n]) + {LedgerOf(b)};
      if key in unique && unique[key] != b.storedLen {
        var other := Live(key.0, key.1, unique[key], 0);
        assert other in Referenced(blocks[..n]);
        SomeReferenced(blocks, n, other);
        assert LedgerOf(b) in Referenced(blocks);
        return None;
      }
      unique := unique[key := b.storedLen];
    }
    assert blocks[..|blocks|] == blocks;
    return Some(unique);
  }

  lemma SomeReferenced(blocks: seq<BlockRef>, n: nat, l: Live)
    requires n <= |blocks| && l in Referenced(blocks[..n])
    ensures l in Referenced(blocks)
  {
    var b :| b in blocks[..n] && LedgerOf(b) == l;
    assert b in blocks;
  }

  /** The sum of the entries, unless it overflows. */
  method SumUnique(unique: map<(nat, nat), nat>, ghost live: set<Live>) returns (r: Option<nat>)
    requires Maps(unique, live)
    ensures r == if SumLive(live, Stored) < U64_LIMIT then Some(SumLive(live, Stored)) else None
  {
    var keys := unique.Keys;
    ghost var left := live;
    var total: nat := 0;
    while keys != {}
      invariant total + SumLive(left, Stored) == SumLive(live, Stored) && total < U64_LIMIT && keys <= unique.Keys
      invariant forall l :: l in left <==> l in live && (l.segment, l.block) in keys
      decreases |keys|
    {
      var key :| key in keys;
      ghost var l := Live(key.0, key.1, unique[key], 0);
      SumLiveRemove(left, Stored, l);
      total := total + unique[key];
      left := left - {l};
      keys := keys - {key};
      if total >= U64_LIMIT {
        return None;
      }
    }
    assert left == {};
    return Some(total);
  }

  method StorageStatsOf(segments: seq<SegmentRecord>, blocks: seq<BlockRef>) returns (r: Result<StorageStats>)
    ensures !LedgerOk(segments, blocks) ==> r == Err(InvalidInput)
    ensures LedgerOk(segments, blocks) ==>
              var referenced := SumLive(Referenced(blocks), Stored);
              r == Ok(StorageStats(FileTotal(segments), referenced, PayloadTotal(segments) - referenced))
  {
    hide Maps, Referenced, InSegments, Consistent, SumLive;
    var retained, payload: nat := 0, 0;
    for i := 0 to |segments|
      invariant retained == FileTotal(segments[..i]) < U64_LIMIT
    {
      assert segments[..i + 1][..i] == segments[..i];
      PrefixTotals(segments, i + 1);
      if retained + segments[i].fileLen >= U64_LIMIT {
        return Err(InvalidInput);
      }
      retained := retained + segments[i].fileLen;
    }
    for i := 0 to |segments|
      invariant payload == PayloadTotal(segments[..i]) < U64_LIMIT
    {
      assert segments[..i + 1][..i] == segments[..i];
      PrefixTotals(segments, i + 1);
      if payload + segments[i].payloadLen >= U64_LIMIT {
        return Err(InvalidInput);
      }
      payload := payload + segments[i].payloadLen;
    }
    assert segments[..|segments|] == segments;
    var unique := CollectUnique(segments, blocks);
    if unique.None? {
      return Err(InvalidInput);
    }
    var referenced := SumUnique(unique.value, Referenced(blocks));
    if referenced.None? || referenced.value > payload {
      return Err(InvalidInput);
    }
    return Ok(StorageStats(retained, referenced.value, payload - referenced.value));
  }

  // --------------------------------------------------------------------- conservation

  /** The blocks of one segment, with or without their plaintext lengths. */
  ghost function BlocksOf(i: nat, m: Manifest, plain: bool): set<Live> {
    set o | 0 <= o < |m| :: Live(i, o, m[o].storedLen, if plain then |m[o].plain| else 0)
  }

  ghost function Physical(ms: seq<Manifest>): set<Live> {
    if ms == [] then {} else Physical(ms[..|ms| - 1]) + BlocksOf(|ms| - 1, ms[|ms| - 1], false)
  }

  lemma {:induction false} PhysicalIs(ms: seq<Manifest>, l: Live)
    ensures l in Physical(ms) <==>
              && l.segment < |ms| && l.block < |ms[l.segment]|
              && l.stored == ms[l.segment][l.block].storedLen && l.plain == 0
  {
    if ms != [] {
      PhysicalIs(ms[..|ms| - 1], l);
    }
  }

  lemma {:induction false} SumUnion(a: set<Live>, b: set<Live>)
    requires a !! b
    ensures SumLive(a + b, Stored) == SumLive(a, Stored) + SumLive(b, Stored)
    decreases b
  {
    if b == {} {
      assert a + b == a;
    } else {
      var l :| l in b;
      SumLiveRemove(b, Stored, l);
      SumLiveRemove(a + b, Stored, l);
      assert a + b - {l} == a + (b - {l});
      SumUnion(a, b - {l});
    }
  }

  lemma {:induction false} SumOfSegment(i: nat, m: Manifest, plain: bool)
    ensures SumLive(BlocksOf(i, m, plain), Stored) == StoredTotal(m)
  {
    if m != [] {
      var n := |m| - 1;
      var last := Live(i, n, m[n].storedLen, if plain then |m[n].plain| else 0);
      SumOfSegment(i, m[..n], plain);
      assert BlocksOf(i, m, plain) - {last} == BlocksOf(i, m[..n], plain);
      SumLiveRemove(BlocksOf(i, m, plain), Stored, last);
    }
  }

  /** The segments are backed by manifests, and every reference describes a block of its segment. */
  ghost predicate Backed(segments: seq<SegmentRecord>, blocks: seq<BlockRef>, ms: seq<Manifest>) {
    && |ms| == |segments|
    && (forall i :: 0 <= i < |ms| ==> SizesAgree(segments[i], ms[i]))
    && (forall b :: b in blocks ==> b.segmentOrdinal < |ms| && Located(b, ms[b.segmentOrdinal]))
  }

  predicate SizesAgree(s: SegmentRecord, m: Manifest) {
    s.blockCount == |m| && s.payloadLen == StoredTotal(m) && s.fileLen == SEGMENT_HEADER_SIZE + s.payloadLen
  }

  lemma {:induction false} SumOfAll(segments: seq<SegmentRecord>, ms: seq<Manifest>)
    requires |ms| == |segments| && forall i :: 0 <= i < |ms| ==> SizesAgree(segments[i], ms[i])
    ensures SumLive(Physical(ms), Stored) == PayloadTotal(segments)
    ensures FileTotal(segments) == SEGMENT_HEADER_SIZE * |segments| + PayloadTotal(segments)
  {
    if ms != [] {
      var n := |ms| - 1;
      SumOfAll(segments[..n], ms[..n]);
      SumOfSegment(n, ms[n], false);
      forall l | l in Physical(ms[..n])
        ensures l !in BlocksOf(n, ms[n], false)
      {
        PhysicalIs(ms[..n], l);
      }
      SumUnion(Physical(ms[..n]), BlocksOf(n, ms[n], false));
    }
  }

  /** Conservation: for a backed release the statistics fail only if the retained bytes exceed a machine
  word. Retained bytes are the headers, the referenced blocks and the stranded ones, and stranded is exactly
  what no reference leads to. */
  lemma Conservation(segments: seq<SegmentRecord>, blocks: seq<BlockRef>, ms: seq<Manifest>)
    requires Backed(segments, blocks, ms)
    ensures LedgerOk(segments, blocks) <==> FileTotal(segments) < U64_LIMIT
    ensures Referenced(blocks) <= Physical(ms)
    ensures PayloadTotal(segments) - SumLive(Referenced(blocks), Stored)
                == SumLive(Physical(ms) - Referenced(blocks), Stored)
    ensures FileTotal(segments) == SEGMENT_HEADER_SIZE * |segments| + SumLive(Referenced(blocks), Stored)
                                   + SumLive(Physical(ms) - Referenced(blocks), Stored)
  {
    SumOfAll(segments, ms);
    forall l | l in Referenced(blocks)
      ensures l in Physical(ms)
    {
      var b :| b in blocks && LedgerOf(b) == l;
      PhysicalIs(ms, l);
    }
    assert Physical(ms) == (Physical(ms) - Referenced(blocks)) + Referenced(blocks);
    SumUnion(Physical(ms) - Referenced(blocks), Referenced(blocks));
    ConsistentBlocks(segments, blocks, ms);
  }

  lemma ConsistentBlocks(segments: seq<SegmentRecord>, blocks: seq<BlockRef>, ms: seq<Manifest>)
    requires Backed(segments, blocks, ms)
    ensures InSegments(segments, blocks) && Consistent(Referenced(blocks))
  {
    hide StoredTotal;
    forall a, b | a in Referenced(blocks) && b in Referenced(blocks) && a.segment == b.segment && a.block == b.block
      ensures a == b
    {
      var p :| p in blocks && LedgerOf(p) == a;
      var q :| q in blocks && LedgerOf(q) == b;
    }
    forall b | b in blocks
      ensures b.segmentOrdinal < |segments| && b.segmentBlockOrdinal < segments[b.segmentOrdinal].blockCount
    {
      assert SizesAgree(segments[b.segmentOrdinal], ms[b.segmentOrdinal]);
    }
  }

  ghost predicate LeadsTo(blocks: seq<BlockRef>, i: nat, o: nat) {
    exists b :: b in blocks && b.segmentOrdinal == i && b.segmentBlockOrdinal == o
  }

  /** Nothing is stranded in a segment all of whose blocks are referenced. */
  lemma NothingStrandedIn(blocks: seq<BlockRef>, ms: seq<Manifest>, i: nat)
    requires i < |ms| && forall o :: 0 <= o < |ms[i]| ==> LeadsTo(blocks, i, o)
    requires forall b :: b in blocks && b.segmentOrdinal == i ==> Located(b, ms[i])
    ensures forall l :: l in Physical(ms) - Referenced(blocks) ==> l.segment != i
  {
    forall l | l in Physical(ms) && l.segment == i
      ensures l in Referenced(blocks)
    {
      PhysicalIs(ms, l);
      assert LeadsTo(blocks, i, l.block);
      var b :| b in blocks && b.segmentOrdinal == i && b.segmentBlockOrdinal == l.block;
      assert LedgerOf(b) == l;
    }
  }

  /** A release whose blocks are all referenced strands nothing. */
  lemma NothingStranded(segments: seq<SegmentRecord>, blocks: seq<BlockRef>, ms: seq<Manifest>)
    requires Backed(segments, blocks, ms)
    requires forall i, o :: 0 <= i < |ms| && 0 <= o < |ms[i]| ==> LeadsTo(blocks, i, o)
    ensures SumLive(Physical(ms) - Referenced(blocks), Stored) == 0
  {
    forall l | l in Physical(ms) - Referenced(blocks)
      ensures false
    {
      PhysicalIs(ms, l);
      NothingStrandedIn(blocks, ms, l.segment);
    }
    assert Physical(ms) - Referenced(blocks) == {};
  }

  /** What consolidation counts in a backed release never exceeds a segment's payload. */
  lemma BackedIsWellReferenced(segments: seq<SegmentRecord>, blocks: seq<BlockRef>, ids: seq<Bytes>, ms: seq<Manifest>)
    requires Backed(segments, blocks, ms) && |ids| == |blocks|
    ensures WellReferenced(segments, Zip(ids, blocks))
    ensures Consistent(AllLive(Zip(ids, blocks)))
  {
    var records := Zip(ids, blocks);
    forall r | r in records
      ensures r.block in blocks
    {
      var n :| 0 <= n < |records| && records[n] == r;
    }
    forall a, b | a in AllLive(records) && b in AllLive(records) && a.segment == b.segment && a.block == b.block
      ensures a == b
    {
      var p :| p in records && LiveOf(p) == a;
      var q :| q in records && LiveOf(q) == b;
      assert p.block in blocks && q.block in blocks;
    }
    FirstsOfConsistent(records);
    forall i | 0 <= i < |segments|
      ensures LiveBytes(Firsts(records), i, Stored) <= segments[i].payloadLen
    {
      var mine := set l | l in AllLive(records) && l.segment == i;
      var all := BlocksOf(i, ms[i], true);
      forall l | l in mine
        ensures l in all
      {
        var r :| r in records && LiveOf(r) == l;
        assert r.block in blocks;
      }
      assert all == (all - mine) + mine;
      SumUnion(all - mine, mine);
      SumOfSegment(i, ms[i], true);
      assert SizesAgree(segments[i], ms[i]);
    }
  }

  // ---------------------------------------------------------- the same bytes, segment by segment

  function WithoutPlain(l: Live): Live {
    l.(plain := 0)
  }

  lemma {:induction false} SumWithoutPlain(live: set<Live>, bare: set<Live>)
    requires Consistent(live) && bare == set l | l in live :: WithoutPlain(l)
    ensures SumLive(live, Stored) == SumLive(bare, Stored)
    decreases live
  {
    if live != {} {
      var l :| l in live;
      var rest := live - {l};
      var bareRest := set k | k in rest :: WithoutPlain(k);
      assert WithoutPlain(l) in bare;
      assert bareRest == bare - {WithoutPlain(l)};
      SumWithoutPlain(rest, bareRest);
      SumLiveRemove(live, Stored, l);
      SumLiveRemove(bare, Stored, WithoutPlain(l));
    } else {
      assert bare == {};
    }
  }

  /** What consolidation counts in a segment of a backed release is what the ledger counts there. */
  lemma CountedIsReferenced(segments: seq<SegmentRecord>, blocks: seq<BlockRef>, ids: seq<Bytes>, ms: seq<Manifest>,
                            i: nat)
    requires Backed(segments, blocks, ms) && |ids| == |blocks|
    ensures LiveBytes(Firsts(Zip(ids, blocks)), i, Stored) == LiveBytes(Referenced(blocks), i, Stored)
  {
    hide Backed, Firsts, WellReferenced;
    var records := Zip(ids, blocks);
    BackedIsWellReferenced(segments, blocks, ids, ms);
    FirstsOfConsistent(records);
    var live := set l | l in AllLive(records) && l.segment == i;
    var bare := set l | l in Referenced(blocks) && l.segment == i;
    ReferencedIsLive(blocks, ids);
    assert bare == set l | l in live :: WithoutPlain(l);
    SumWithoutPlain(live, bare);
  }

  lemma ReferencedIsLive(blocks: seq<BlockRef>, ids: seq<Bytes>)
    requires |ids| == |blocks|
    ensures Referenced(blocks) == set l | l in AllLive(Zip(ids, blocks)) :: WithoutPlain(l)
  {
    var records := Zip(ids, blocks);
    var bare := set l | l in AllLive(records) :: WithoutPlain(l);
    forall l | l in Referenced(blocks)
      ensures l in bare
    {
      var b :| b in blocks && LedgerOf(b) == l;
      var n :| 0 <= n < |blocks| && blocks[n] == b;
      assert records[n] in records && LiveOf(records[n]) in AllLive(records);
      assert WithoutPlain(LiveOf(records[n])) == l;
    }
    forall l | l in bare
      ensures l in Referenced(blocks)
    {
      var k :| k in AllLive(records) && WithoutPlain(k) == l;
      var r :| r in records && LiveOf(r) == k;
      var n :| 0 <= n < |records| && records[n] == r;
      assert blocks[n] in blocks && LedgerOf(blocks[n]) == l;
    }
  }

  /** The payload bytes of segment `i` that no block of the release refers to. */
  ghost function DeadBytes(segments: seq<SegmentRecord>, blocks: seq<BlockRef>, i: nat): int
    requires i < |segments|
  {
    segments[i].payloadLen - LiveBytes(Referenced(blocks), i, Stored)
  }

  ghost function DeadTotal(segments: seq<SegmentRecord>, blocks: seq<BlockRef>, n: nat): int
    requires n <= |segments|
  {
    if n == 0 then 0 else DeadTotal(segments, blocks, n - 1) + DeadBytes(segments, blocks, n - 1)
  }

  lemma ReferencedBelow(live: set<Live>, n: nat)
    ensures SumLive((set l | l in live && l.segment < n + 1), Stored)
         == SumLive((set l | l in live && l.segment < n), Stored) + LiveBytes(live, n, Stored)
  {
    var below, mine := (set l | l in live && l.segment < n), (set l | l in live && l.segment == n);
    assert (set l | l in live && l.segment < n + 1) == below + mine;
    SumUnion(below, mine);
  }

  lemma {:induction false} DeadPrefix(segments: seq<SegmentRecord>, blocks: seq<BlockRef>, n: nat)
    requires n <= |segments|
    ensures DeadTotal(segments, blocks, n)
         == PayloadTotal(segments[..n]) - SumLive((set l | l in Referenced(blocks) && l.segment < n), Stored)
    decreases n
  {
    hide LiveBytes, Referenced;
    if n == 0 {
      assert (set l | l in Referenced(blocks) && l.segment < 0) == {};
    } else {
      DeadPrefix(segments, blocks, n - 1);
      ReferencedBelow(Referenced(blocks), n - 1);
      assert segments[..n][..n - 1] == segments[..n - 1];
    }
  }

  /** The stranded bytes of a release are the dead bytes of its segments together. */
  lemma StrandedIsDead(segments: seq<SegmentRecord>, blocks: seq<BlockRef>)
    requires InSegments(segments, blocks)
    ensures DeadTotal(segments, blocks, |segments|) == PayloadTotal(segments) - SumLive(Referenced(blocks), Stored)
  {
    DeadPrefix(segments, blocks, |segments|);
    assert segments[..|segments|] == segments;
    assert (set l | l in Referenced(blocks) && l.segment < |segments|) == Referenced(blocks);
  }
}
