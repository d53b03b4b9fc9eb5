/** From a finished build to a snapshot: listing the segments, assigning ordinals, remapping the blocks. */
module Releases {
  import opened Basics
  import opened Records
  import opened BlockStore
  import opened Sources
  import opened SegmentStore
  import opened Placement
  import opened Rotation
  import opened Builds
  import opened Packing
  import opened Ordering
  import opened Storage
  import Compaction

  /** The logical content of a snapshot file. */
  datatype Snapshot = Snapshot(sequence: nat, fingerprint: seq<FileItem>, segments: seq<SegmentRecord>,
                               files: seq<FileRecord>, paths: seq<Bytes>, pathPool: Bytes, blocks: seq<BlockRef>,
                               chunkIds: seq<Bytes>)

  datatype PackReport = PackReport(changed: bool, sequence: nat, fileCount: nat, blockCount: nat, reusedBlocks: nat,
                                   newBlocks: nat, newSegments: nat, newSegmentBytes: nat, storage: StorageStats)

  // ----------------------------------------------------------------- finishing the writers

  /** The position of the writer that was started first. */
  function OldestWriter(active: seq<ActiveSegment>): (p: nat)
    requires active != []
    ensures p < |active| && forall q :: 0 <= q < |active| ==> active[p].index <= active[q].index
  {
    if |active| == 1 then 0
    else
      var n := |active| - 1;
      var p := OldestWriter(active[..n]);
      if active[n].index < active[p].index then n else p
  }

  /** Every segment that was started is finished, each exactly once. */
  method FinishActiveSegments(c: BuildContext) returns (r: Result<()>)
    requires c.Valid()
    modifies c`data, c`records, c`active, c`newSegmentBytes, c`closed, c`faults
    ensures Adds(c.tool, old(c.data), c.data) && c.faults >= old(c.faults)
    ensures r.Err? ==> c.faults > old(c.faults) || Overloaded(|c.tape|, c.options.targetBytes, c.plains)
    ensures r.Ok? ==> c.Valid() && c.active == [] && |c.records| == |old(c.records)|
    ensures r.Ok? ==> forall i :: 0 <= i < |c.records| ==>
              c.records[i].Some? && (old(c.records)[i].Some? ==> c.records[i] == old(c.records)[i])
  {
    hide BlocksOk, CurrentOk, SegmentsOk, AllReferenced, LibraryOk, ReuseOk, UsedOk, TapeOk, NamesDistinct, ToolSound,
         Adds, Frugal, SealedOnce, NamedByContent, Overloaded;
    AddsNothing(c.tool, c.data);
    while c.active != []
      invariant c.Valid() && Adds(c.tool, old(c.data), c.data) && |c.records| == |old(c.records)|
      invariant c.faults >= old(c.faults)
      invariant forall i :: 0 <= i < |c.records| && old(c.records)[i].Some? ==> c.records[i] == old(c.records)[i]
      decreases |c.active|
    {
      var position := OldestWriter(c.active);
      ghost var before := c.data;
      SwapRemoved(c.active, position);
      FlushFails(|c.tape|, c.manifests, c.active, c.closed, c.options.targetBytes, c.plains, position);
      var finished := c.FinishActiveSegment(position);
      AddsOn(c.tool, old(c.data), before, c.data);
      if finished.Err? {
        return finished;
      }
      c.closed := c.closed + 1;
    }
    AllFinished(c.tool, c.projectId, c.data, c.records, c.manifests, c.kinds, c.tape, c.options.targetBytes);
    return Ok(());
  }

  lemma FlushFails(draws: nat, manifests: seq<Manifest>, active: seq<ActiveSegment>, closed: nat, configured: nat,
                   plains: seq<Bytes>, p: nat)
    requires Frugal(manifests, active, closed, configured, plains) && p < |active|
    ensures SEGMENT_HEADER_SIZE + active[p].writer.payloadLen >= U64_LIMIT ==> Overloaded(draws, configured, plains)
    ensures Frugal(manifests, SwapRemove(active, p), closed + 1, configured, plains)
  {
    ActiveMember(active, p);
    RotatedFlush(manifests, active, closed, configured, p);
  }

  lemma AllFinished(t: Tool, projectId: Bytes, data: map<Bytes, Bytes>, records: seq<Option<SegmentRecord>>,
                    manifests: seq<Manifest>, kinds: seq<SegmentClass>, tape: seq<Draw>, configured: nat)
    requires SegmentsOk(t, projectId, data, records, [], manifests, kinds, tape, configured)
    ensures |records| == |manifests| == |kinds| <= |tape|
    ensures forall i :: 0 <= i < |records| ==>
              && records[i].Some?
              && FinishedOk(t, projectId, data, records[i].value, manifests[i], kinds[i], tape[i], configured)
  {
    forall i | 0 <= i < |records|
      ensures records[i].Some?
    {
      assert records[i].None? ==> HasWriter([], i);
    }
  }

  // ------------------------------------------------------------------ listing the segments

  ghost predicate ById(segments: seq<SegmentRecord>) {
    forall i, j :: 0 <= i < j < |segments| ==> Less(segments[i].id, segments[j].id)
  }

  lemma ByIdDistinct(segments: seq<SegmentRecord>)
    requires ById(segments)
    ensures NamesDistinct(segments)
  {
    forall i, j | 0 <= i < j < |segments|
      ensures segments[i].id != segments[j].id
    {
      LessIrreflexive(segments[i].id);
    }
  }

  /** The library sort by name, one insertion at a time. */
  method InsertById(sorted: seq<SegmentRecord>, s: SegmentRecord) returns (r: seq<SegmentRecord>)
    requires ById(sorted) && forall x :: x in sorted ==> x.id != s.id
    ensures ById(r) && |r| == |sorted| + 1 && forall x :: x in r <==> x in sorted || x == s
  {
    hide Less, ById;
    var p := 0;
    while p < |sorted| && Less(sorted[p].id, s.id)
      invariant p <= |sorted| && forall i :: 0 <= i < p ==> Less(sorted[i].id, s.id)
    {
      p := p + 1;
    }
    r := sorted[..p] + [s] + sorted[p..];
    InsertedById(sorted, s, p);
    SameSegments(sorted, s, p);
  }

  lemma InsertedById(sorted: seq<SegmentRecord>, s: SegmentRecord, p: nat)
    requires ById(sorted) && s !in sorted && (forall x :: x in sorted ==> x.id != s.id) && p <= |sorted|
    requires forall i :: 0 <= i < p ==> Less(sorted[i].id, s.id)
    requires p < |sorted| ==> !Less(sorted[p].id, s.id)
    ensures ById(sorted[..p] + [s] + sorted[p..])
  {
    hide Less;
    forall i | p <= i < |sorted|
      ensures Less(s.id, sorted[i].id)
    {
      assert sorted[p] in sorted;
      LessTotal(s.id, sorted[p].id);
      if i > p {
        LessTransitive(s.id, sorted[p].id, sorted[i].id);
      }
    }
    var r := sorted[..p] + [s] + sorted[p..];
    forall i, j | 0 <= i < j < |r|
      ensures Less(r[i].id, r[j].id)
    {
      assert r[i] == if i < p then sorted[i] else if i == p then s else sorted[i - 1];
      assert r[j] == if j < p then sorted[j] else if j == p then s else sorted[j - 1];
    }
  }

  lemma SameSegments(sorted: seq<SegmentRecord>, s: SegmentRecord, p: nat)
    requires p <= |sorted|
    ensures forall x :: x in sorted[..p] + [s] + sorted[p..] <==> x in sorted || x == s
  {
    assert sorted == sorted[..p] + sorted[p..];
  }

  ghost predicate Listed(segments: seq<SegmentRecord>, used: map<Bytes, SegmentRecord>,
                         records: seq<Option<SegmentRecord>>) {
    && ById(segments)
    && (forall s :: s in segments <==> s in used.Values || Some(s) in records)
  }

  /** No two segments of a release have one name. */
  ghost predicate NamesApart(used: map<Bytes, SegmentRecord>, records: seq<Option<SegmentRecord>>) {
    && (forall id :: id in used ==> used[id].id == id)
    && (forall i :: 0 <= i < |records| && records[i].Some? ==> records[i].value.id !in used)
    && (forall i, j :: 0 <= i < j < |records| && records[i].Some? && records[j].Some? ==>
        records[i].value.id != records[j].value.id)
  }

  /** The segments of the release in the order of their names. */
  method ListSegments(used: map<Bytes, SegmentRecord>, records: seq<Option<SegmentRecord>>)
    returns (segments: seq<SegmentRecord>)
    requires NamesApart(used, records)
    ensures Listed(segments, used, records)
  {
    segments := [];
    var left := used.Keys;
    while left != {}
      invariant ById(segments) && left <= used.Keys
      invariant forall s :: s in segments <==> s in used.Values && s.id !in left
      decreases |left|
    {
      var id :| id in left;
      segments := InsertById(segments, used[id]);
      left := left - {id};
    }
    for i := 0 to |records|
      invariant ById(segments)
      invariant forall s :: s in segments <==> s in used.Values || Some(s) in records[..i]
    {
      if records[i].Some? {
        var s := records[i].value;
        forall x | x in segments
          ensures x.id != s.id
        {
          if Some(x) in records[..i] {
            var j :| 0 <= j < i && records[j] == Some(x);
          }
        }
        segments := InsertById(segments, s);
      }
      assert records[..i + 1] == records[..i] + [records[i]];
    }
    assert records[..|records|] == records;
  }

  /** The ordinal of each listed segment, by name. */
  method AssignOrdinals(segments: seq<SegmentRecord>) returns (r: Result<map<Bytes, nat>>)
    requires NamesDistinct(segments)
    ensures r.Err? <==> |segments| > U16_LIMIT
    ensures r.Ok? ==> (forall i :: 0 <= i < |segments| ==> segments[i].id in r.value && r.value[segments[i].id] == i)
                      && (forall id :: id in r.value ==> r.value[id] < |segments| && segments[r.value[id]].id == id)
  {
    var ordinals: map<Bytes, nat> := map[];
    for i := 0 to |segments|
      invariant i <= U16_LIMIT
      invariant forall j :: 0 <= j < i ==> segments[j].id in ordinals && ordinals[segments[j].id] == j
      invariant forall id :: id in ordinals ==> ordinals[id] < i && segments[ordinals[id]].id == id
    {
      if i >= U16_LIMIT {
        return Err(InvalidInput);
      }
      ordinals := ordinals[segments[i].id := i];
    }
    return Ok(ordinals);
  }

  /** The name of the segment that holds a pending block. */
  function NameOf(p: PendingBlock, records: seq<Option<SegmentRecord>>): Option<Bytes> {
    match p.locator
    case Existing(id) => Some(id)
    case New(i) => if i < |records| && records[i].Some? then Some(records[i].value.id) else None
  }

  /** Replaces each locator by the ordinal of its segment. */
  method Remap(pending: seq<PendingBlock>, records: seq<Option<SegmentRecord>>, ordinals: map<Bytes, nat>)
    returns (r: Result<seq<BlockRef>>)
    ensures r.Err? <==> exists n :: 0 <= n < |pending| && Unmapped(pending[n], records, ordinals)
    ensures r.Ok? ==> |r.value| == |pending|
                      && forall n :: 0 <= n < |pending| ==> Mapped(pending[n], records, ordinals, r.value[n])
  {
    var blocks: seq<BlockRef> := [];
    for n := 0 to |pending|
      invariant |blocks| == n && forall m :: 0 <= m < n ==> Mapped(pending[m], records, ordinals, blocks[m])
      invariant forall m :: 0 <= m < n ==> !Unmapped(pending[m], records, ordinals)
    {
      var name := NameOf(pending[n], records);
      if name.None? || name.value !in ordinals {
        return Err(InvalidInput);
      }
      blocks := blocks + [pending[n].reference.(segmentOrdinal := ordinals[name.value])];
    }
    return Ok(blocks);
  }

  ghost predicate Unmapped(p: PendingBlock, records: seq<Option<SegmentRecord>>, ordinals: map<Bytes, nat>) {
    var name := NameOf(p, records);
    name.None? || name.value !in ordinals
  }

  ghost predicate Mapped(p: PendingBlock, records: seq<Option<SegmentRecord>>, ordinals: map<Bytes, nat>, b: BlockRef) {
    var name := NameOf(p, records);
    name.Some? && name.value in ordinals && b == p.reference.(segmentOrdinal := ordinals[name.value])
  }

  // ------------------------------------------------------------------ distinct names

  /** Random uids have not been drawn before. */
  ghost predicate FreshUids(tape: seq<Draw>, segments: seq<SegmentRecord>) {
    forall i, j :: 0 <= i < |tape| && 0 <= j < |segments| ==> tape[i].uid != segments[j].uid
  }

  ghost predicate AllStored(t: Tool, projectId: Bytes, data: map<Bytes, Bytes>, records: seq<Option<SegmentRecord>>,
                            manifests: seq<Manifest>, kinds: seq<SegmentClass>, tape: seq<Draw>, configured: nat) {
    && |records| == |manifests| == |kinds| <= |tape|
    && (forall i :: 0 <= i < |records| ==>
          records[i].Some? && FinishedOk(t, projectId, data, records[i].value, manifests[i], kinds[i], tape[i],
                                         configured))
  }

  lemma NamesAreApart(t: Tool, projectId: Bytes, data: map<Bytes, Bytes>, used: map<Bytes, SegmentRecord>,
                      index: ReuseIndex, segments: seq<SegmentRecord>, library: map<Bytes, Manifest>,
                      records: seq<Option<SegmentRecord>>, manifests: seq<Manifest>,
                      kinds: seq<SegmentClass>, tape: seq<Draw>, configured: nat)
    requires ToolSound(t) && LibraryOk(t, projectId, data, segments, library) && UsedOk(used, index, segments)
    requires AllStored(t, projectId, data, records, manifests, kinds, tape, configured) && TapeOk(tape)
    requires FreshUids(tape, segments)
    ensures NamesApart(used, records)
  {
    hide ToolSound, Stored, Bounded, TargetBytes;
    forall i | 0 <= i < |records|
      ensures records[i].value.id !in used
    {
      var id := records[i].value.id;
      if id in used {
        var k :| 0 <= k < |segments| && segments[k] == used[id];
        DistinctUidsDistinctNames(t, projectId, data, data, records[i].value, manifests[i], segments[k],
                                  library[segments[k].id]);
      }
    }
    forall i, j | 0 <= i < j < |records|
      ensures records[i].value.id != records[j].value.id
    {
      if records[i].value.id == records[j].value.id {
        DistinctUidsDistinctNames(t, projectId, data, data, records[i].value, manifests[i], records[j].value,
                                  manifests[j]);
      }
    }
  }

  /** The manifests of all segments once the new ones have names. */
  ghost function Merged(library: map<Bytes, Manifest>, records: seq<Option<SegmentRecord>>,
                        manifests: seq<Manifest>): map<Bytes, Manifest>
    requires |records| == |manifests|
  {
    if records == [] then library
    else
      var n := |records| - 1;
      var before := Merged(library, records[..n], manifests[..n]);
      if records[n].Some? then before[records[n].value.id := manifests[n]] else before
  }

  lemma {:induction false} MergedOld(library: map<Bytes, Manifest>, records: seq<Option<SegmentRecord>>,
                                     manifests: seq<Manifest>, id: Bytes)
    requires |records| == |manifests|
    requires forall i :: 0 <= i < |records| && records[i].Some? ==> records[i].value.id != id
    ensures id in Merged(library, records, manifests) <==> id in library
    ensures id in library ==> Merged(library, records, manifests)[id] == library[id]
  {
    if records != [] {
      MergedOld(library, records[..|records| - 1], manifests[..|records| - 1], id);
    }
  }

  lemma {:induction false} MergedNew(library: map<Bytes, Manifest>, records: seq<Option<SegmentRecord>>,
                                     manifests: seq<Manifest>, i: nat)
    requires |records| == |manifests| && i < |records| && records[i].Some?
    requires forall j :: i < j < |records| && records[j].Some? ==> records[j].value.id != records[i].value.id
    ensures records[i].value.id in Merged(library, records, manifests)
    ensures Merged(library, records, manifests)[records[i].value.id] == manifests[i]
  {
    if i < |records| - 1 {
      MergedNew(library, records[..|records| - 1], manifests[..|records| - 1], i);
    }
  }

  // -------------------------------------------------------------------- sound snapshots

  /** One block as the assets see it. */
  datatype Line = Line(offset: nat, home: Availability, plain: Bytes)

  ghost function LinesOf(pending: seq<PendingBlock>, plains: seq<Bytes>, w: World): (r: seq<Line>)
    requires |pending| == |plains|
    ensures |r| == |pending|
  {
    seq(|pending|, n requires 0 <= n < |pending| => Line(pending[n].reference.logicalOffset, Home(pending[n], w),
                                                         plains[n]))
  }

  ghost predicate BlockAt(t: Tool, s: Snapshot, library: map<Bytes, Manifest>, n: nat)
    requires n < |s.blocks| == |s.chunkIds|
  {
    var b := s.blocks[n];
    && b.segmentOrdinal < |s.segments| && s.segments[b.segmentOrdinal].id in library
    && Located(b, library[s.segments[b.segmentOrdinal].id])
    && s.chunkIds[n] == t.hash(PlainAt(b, library[s.segments[b.segmentOrdinal].id]))
  }

  ghost predicate SegmentNeeded(s: Snapshot, i: nat) {
    exists n :: 0 <= n < |s.blocks| && s.blocks[n].segmentOrdinal == i
  }

  /** Everything the snapshot names is on disk, and every block reference leads to the chunk it is named for. */
  ghost predicate SnapshotOk(t: Tool, projectId: Bytes, data: map<Bytes, Bytes>, library: map<Bytes, Manifest>,
                             s: Snapshot) {
    && ById(s.segments) && |s.segments| <= U16_LIMIT && LibraryOk(t, projectId, data, s.segments, library)
    && |s.chunkIds| == |s.blocks| < U32_LIMIT
    && (forall n :: 0 <= n < |s.blocks| ==> BlockAt(t, s, library, n))
    && (forall i :: 0 <= i < |s.segments| ==> SegmentNeeded(s, i))
    && FileTotal(s.segments) < U64_LIMIT
  }

  ghost function LineAt(s: Snapshot, library: map<Bytes, Manifest>, n: nat): Line
    requires n < |s.blocks|
  {
    var b := s.blocks[n];
    if b.segmentOrdinal < |s.segments| && s.segments[b.segmentOrdinal].id in library then
      Line(b.logicalOffset, s.segments[b.segmentOrdinal].availability,
           PlainAt(b, library[s.segments[b.segmentOrdinal].id]))
    else Line(b.logicalOffset, Required, [])
  }

  ghost function SnapshotLines(s: Snapshot, library: map<Bytes, Manifest>): (r: seq<Line>)
    ensures |r| == |s.blocks|
  {
    seq(|s.blocks|, n requires 0 <= n < |s.blocks| => LineAt(s, library, n))
  }

  /** No pending block is left without an ordinal. */
  lemma HasOrdinal(c: BuildContext, segments: seq<SegmentRecord>, ordinals: map<Bytes, nat>, n: nat)
    requires c.Valid()
    requires AllStored(c.tool, c.projectId, c.data, c.records, c.manifests, c.kinds, c.tape, c.options.targetBytes)
    requires NamesApart(c.used, c.records) && Listed(segments, c.used, c.records) && n < |c.pending|
    requires forall i :: 0 <= i < |segments| ==> segments[i].id in ordinals && ordinals[segments[i].id] == i
    ensures !Unmapped(c.pending[n], c.records, ordinals)
  {
    hide ToolSound, CurrentOk, SegmentsOk, AllReferenced, LibraryOk, ReuseOk, UsedOk, TapeOk, NamesDistinct, NoneEmpty,
         Stored, ById, Bounded, TargetBytes, Frugal, SealedOnce, NamedByContent;
    var p := c.pending[n];
    assert Gives(p, c.plains[n], Home(p, c.Here()), c.Here());
    match p.locator
    case Existing(id) =>
      assert c.used[id] in segments;
    case New(i) =>
      assert c.records[i] in c.records;
      assert c.records[i].value in segments;
  }

  /** A pending block, once its locator is resolved, is the same block of the same segment. */
  lemma RemappedBlock(t: Tool, c: BuildContext, s: Snapshot, ordinals: map<Bytes, nat>, n: nat)
    requires c.Valid()
    requires AllStored(c.tool, c.projectId, c.data, c.records, c.manifests, c.kinds, c.tape, c.options.targetBytes)
    requires NamesApart(c.used, c.records) && Listed(s.segments, c.used, c.records) && s.chunkIds == c.chunkIds
    requires forall i :: 0 <= i < |s.segments| ==> s.segments[i].id in ordinals && ordinals[s.segments[i].id] == i
    requires n < |c.pending| == |s.blocks| && t == c.tool && Mapped(c.pending[n], c.records, ordinals, s.blocks[n])
    ensures var library := Merged(c.library, c.records, c.manifests);
            |s.chunkIds| == |s.blocks| == |c.plains| && BlockAt(t, s, library, n)
            && LineAt(s, library, n)
                   == Line(c.pending[n].reference.logicalOffset, Home(c.pending[n], c.Here()), c.plains[n])
  {
    hide ToolSound, CurrentOk, SegmentsOk, AllReferenced, LibraryOk, ReuseOk, UsedOk, TapeOk, NamesDistinct, NoneEmpty,
         Stored, ById, Bounded, TargetBytes, Frugal, SealedOnce, NamedByContent;
    var p, library := c.pending[n], Merged(c.library, c.records, c.manifests);
    assert Gives(p, c.plains[n], Home(p, c.Here()), c.Here());
    match p.locator
    case Existing(id) =>
      assert c.used[id] in s.segments;
      var k :| 0 <= k < |s.segments| && s.segments[k] == c.used[id];
      MergedOld(c.library, c.records, c.manifests, id);
    case New(i) =>
      assert c.records[i] in c.records;
      assert c.records[i].value in s.segments;
      var k :| 0 <= k < |s.segments| && s.segments[k] == c.records[i].value;
      MergedNew(c.library, c.records, c.manifests, i);
  }

  // -------------------------------------------------------------------- the snapshot

  ghost function ManifestsOf(segments: seq<SegmentRecord>, library: map<Bytes, Manifest>): (ms: seq<Manifest>)
    ensures |ms| == |segments|
  {
    seq(|segments|, i requires 0 <= i < |segments| => if segments[i].id in library then library[segments[i].id] else [])
  }

  lemma SnapshotIsBacked(t: Tool, projectId: Bytes, data: map<Bytes, Bytes>, library: map<Bytes, Manifest>, s: Snapshot)
    requires LibraryOk(t, projectId, data, s.segments, library) && |s.chunkIds| == |s.blocks|
    requires forall n :: 0 <= n < |s.blocks| ==> BlockAt(t, s, library, n)
    ensures Backed(s.segments, s.blocks, ManifestsOf(s.segments, library))
  {
    hide StoredTotal, Holds, SegmentFile;
    var ms := ManifestsOf(s.segments, library);
    forall i | 0 <= i < |ms|
      ensures SizesAgree(s.segments[i], ms[i])
    {
      assert Stored(t, projectId, data, s.segments[i], library[s.segments[i].id]);
    }
    forall b | b in s.blocks
      ensures b.segmentOrdinal < |ms| && Located(b, ms[b.segmentOrdinal])
    {
      var n :| 0 <= n < |s.blocks| && s.blocks[n] == b;
      assert BlockAt(t, s, library, n);
    }
  }

  lemma ListedNeeded(c: BuildContext, s: Snapshot, ordinals: map<Bytes, nat>, i: nat)
    requires c.Valid()
    requires AllStored(c.tool, c.projectId, c.data, c.records, c.manifests, c.kinds, c.tape, c.options.targetBytes)
    requires Listed(s.segments, c.used, c.records) && i < |s.segments| && |c.pending| == |s.blocks|
    requires s.segments[i].id in ordinals && ordinals[s.segments[i].id] == i
    requires forall n :: 0 <= n < |c.pending| ==> Mapped(c.pending[n], c.records, ordinals, s.blocks[n])
    ensures SegmentNeeded(s, i)
  {
    hide BuildContext.Holding, ById, FinishedOk;
    var x := s.segments[i];
    assert x in s.segments;
    if x in c.used.Values {
      var id :| id in c.used && c.used[id] == x;
      UsedNeeded(c, id);
      var n :| 0 <= n < |c.pending| && c.pending[n].locator == Existing(id);
      assert Mapped(c.pending[n], c.records, ordinals, s.blocks[n]);
    } else {
      var k :| 0 <= k < |c.records| && c.records[k] == Some(x);
      NewNeeded(c, k, x);
      var n :| 0 <= n < |c.pending| && c.pending[n].locator == New(k)
      && c.pending[n].reference.segmentBlockOrdinal == 0;
      assert Mapped(c.pending[n], c.records, ordinals, s.blocks[n]);
    }
  }

  lemma UsedNeeded(c: BuildContext, id: Bytes)
    requires c.Valid() && id in c.used
    ensures UsesSegment(c.pending, id) && c.used[id].id == id
  {
    hide ToolSound, CurrentOk, SegmentsOk, LibraryOk, ReuseOk, TapeOk, NamesDistinct, NoneEmpty, BlocksOk, UsesSegment,
         UsesBlock, Offered, Frugal, SealedOnce, NamedByContent;
  }

  lemma NewNeeded(c: BuildContext, k: nat, x: SegmentRecord)
    requires c.Valid()
    requires AllStored(c.tool, c.projectId, c.data, c.records, c.manifests, c.kinds, c.tape, c.options.targetBytes)
    requires k < |c.records| && c.records[k] == Some(x)
    ensures UsesBlock(c.pending, k, 0)
  {
    hide ToolSound, CurrentOk, SegmentsOk, LibraryOk, ReuseOk, UsedOk, TapeOk, NamesDistinct, NoneEmpty, BlocksOk,
         UsesSegment, UsesBlock, Bounded, TargetBytes, Holds, StoredTotal, SegmentFile, Frugal, SealedOnce,
         NamedByContent;
    assert FinishedOk(c.tool, c.projectId, c.data, x, c.manifests[k], c.kinds[k], c.tape[k], c.options.targetBytes);
  }

  lemma ListedStored(c: BuildContext, segments: seq<SegmentRecord>)
    requires c.Valid()
    requires AllStored(c.tool, c.projectId, c.data, c.records, c.manifests, c.kinds, c.tape, c.options.targetBytes)
    requires NamesApart(c.used, c.records) && Listed(segments, c.used, c.records)
    ensures LibraryOk(c.tool, c.projectId, c.data, segments, Merged(c.library, c.records, c.manifests))
  {
    hide ToolSound, CurrentOk, SegmentsOk, ReuseOk, TapeOk, NamesDistinct, NoneEmpty, ById, Bounded, TargetBytes,
         BlocksOk, Stored, Frugal, SealedOnce, NamedByContent;
    var library := Merged(c.library, c.records, c.manifests);
    forall i | 0 <= i < |segments|
      ensures segments[i].id in library && Stored(c.tool, c.projectId, c.data, segments[i], library[segments[i].id])
    {
      var x := segments[i];
      assert x in segments;
      if x in c.used.Values {
        var id :| id in c.used && c.used[id] == x;
        var k :| 0 <= k < |c.reuseSegments| && c.reuseSegments[k] == x;
        MergedOld(c.library, c.records, c.manifests, id);
      } else {
        var k :| 0 <= k < |c.records| && c.records[k] == Some(x);
        MergedNew(c.library, c.records, c.manifests, k);
        assert FinishedOk(c.tool, c.projectId, c.data, x, c.manifests[k], c.kinds[k], c.tape[k], c.options.targetBytes);
      }
    }
  }

  /** The segments in use do not fit a snapshot. */
  ghost predicate TooLarge(c: BuildContext)
    reads c
  {
    || |c.pending| >= U32_LIMIT
    || exists segments ::
         Listed(segments, c.used, c.records) && (|segments| > U16_LIMIT || FileTotal(segments) >= U64_LIMIT)
  }

  /** All that the snapshot names is on disk, and each block is what the build had pending. */
  ghost predicate Written(c: BuildContext, sequence: nat, s: Snapshot)
    reads c
  {
    && |c.records| == |c.manifests| && |c.plains| == |c.pending| && Resolved(c, s.segments, s.blocks)
    && SnapshotOk(c.tool, c.projectId, c.data, Merged(c.library, c.records, c.manifests), s)
    && SnapshotLines(s, Merged(c.library, c.records, c.manifests)) == LinesOf(c.pending, c.plains, c.Here())
    && s == Snapshot(sequence, c.fingerprint, s.segments, c.fileRecords, c.filePaths, c.pathPool, s.blocks, c.chunkIds)
  }

  /** The snapshot of a finished build. It fails only on sizes; otherwise the storage
  statistics are exact as well. */
  method WriteSnapshot(c: BuildContext, sequence: nat) returns (r: Result<(Snapshot, StorageStats)>)
    requires c.Valid() && FreshUids(c.tape, c.reuseSegments)
    requires AllStored(c.tool, c.projectId, c.data, c.records, c.manifests, c.kinds, c.tape, c.options.targetBytes)
    ensures r.Err? ==> TooLarge(c)
    ensures r.Ok? ==> Written(c, sequence, r.value.0) && NamesApart(c.used, c.records)
    ensures r.Ok? ==> LedgerOk(r.value.0.segments, r.value.0.blocks) && r.value.1 == StatsOf(r.value.0)
  {
    hide BuildContext.Holding, AllStored, FreshUids, Listed, FileTotal, PayloadTotal, LedgerOk, Resolved, Written,
         NamesApart;
    var resolved := ResolveBlocks(c);
    if resolved.Err? {
      return Err(resolved.error);
    }
    var (segments, blocks) := resolved.value;
    var s := Snapshot(sequence, c.fingerprint, segments, c.fileRecords, c.filePaths, c.pathPool, blocks, c.chunkIds);
    SnapshotWritten(c, sequence, s);
    var storage := StorageStatsOf(segments, blocks);
    if storage.Err? {
      return Err(storage.error);
    }
    if |blocks| != |c.chunkIds| || |blocks| >= U32_LIMIT {
      return Err(InvalidInput);
    }
    return Ok((s, storage.value));
  }

  lemma SnapshotWritten(c: BuildContext, sequence: nat, s: Snapshot)
    requires c.Valid()
    requires AllStored(c.tool, c.projectId, c.data, c.records, c.manifests, c.kinds, c.tape, c.options.targetBytes)
    requires NamesApart(c.used, c.records) && Resolved(c, s.segments, s.blocks)
    requires s == Snapshot(sequence, c.fingerprint, s.segments, c.fileRecords, c.filePaths, c.pathPool, s.blocks,
                           c.chunkIds)
    ensures Listed(s.segments, c.used, c.records) && |s.blocks| == |c.chunkIds| == |c.pending|
    ensures LedgerOk(s.segments, s.blocks) <==> FileTotal(s.segments) < U64_LIMIT
    ensures |c.pending| < U32_LIMIT && FileTotal(s.segments) < U64_LIMIT ==> Written(c, sequence, s)
  {
    assert |c.records| == |c.manifests|;
    hide BuildContext.Holding, AllStored, BlockAt, LineAt, SegmentNeeded, FileTotal, PayloadTotal, LedgerOk, Backed,
         Merged, LibraryOk, Mapped, NamesApart, SnapshotLines, LinesOf, Resolved, Listed, ById;
    var library := Merged(c.library, c.records, c.manifests);
    AllMapped(c, s);
    LedgerWhenShort(c.tool, c.projectId, c.data, library, s);
    ResolvedIsListed(c, s.segments, s.blocks);
  }

  lemma ResolvedIsListed(c: BuildContext, segments: seq<SegmentRecord>, blocks: seq<BlockRef>)
    requires Resolved(c, segments, blocks)
    ensures Listed(segments, c.used, c.records) && ById(segments) && |segments| <= U16_LIMIT && |blocks| == |c.pending|
  {
    hide BuildContext.Holding, Assigned, ById;
  }

  /** The ledger of well-placed blocks is consistent exactly when the file lengths add up to a word. */
  lemma LedgerWhenShort(t: Tool, projectId: Bytes, data: map<Bytes, Bytes>, library: map<Bytes, Manifest>, s: Snapshot)
    requires LibraryOk(t, projectId, data, s.segments, library) && |s.chunkIds| == |s.blocks|
    requires forall n :: 0 <= n < |s.blocks| ==> BlockAt(t, s, library, n)
    ensures LedgerOk(s.segments, s.blocks) <==> FileTotal(s.segments) < U64_LIMIT
  {
    hide LibraryOk, BlockAt, FileTotal, PayloadTotal, LedgerOk, Backed, Referenced, Physical, Compaction.SumLive;
    SnapshotIsBacked(t, projectId, data, library, s);
    Conservation(s.segments, s.blocks, ManifestsOf(s.segments, library));
  }

  /** The resolved blocks of a build. */
  ghost predicate Resolved(c: BuildContext, segments: seq<SegmentRecord>, blocks: seq<BlockRef>)
    reads c
  {
    && Listed(segments, c.used, c.records) && |segments| <= U16_LIMIT && |blocks| == |c.pending|
    && exists ordinals :: Assigned(c, segments, blocks, ordinals)
  }

  ghost predicate Assigned(c: BuildContext, segments: seq<SegmentRecord>, blocks: seq<BlockRef>,
                           ordinals: map<Bytes, nat>)
    reads c
  {
    && |blocks| == |c.pending|
    && (forall i :: 0 <= i < |segments| ==> segments[i].id in ordinals && ordinals[segments[i].id] == i)
    && (forall n :: 0 <= n < |blocks| ==> Mapped(c.pending[n], c.records, ordinals, blocks[n]))
  }

  method ResolveBlocks(c: BuildContext) returns (r: Result<(seq<SegmentRecord>, seq<BlockRef>)>)
    requires c.Valid() && FreshUids(c.tape, c.reuseSegments)
    requires AllStored(c.tool, c.projectId, c.data, c.records, c.manifests, c.kinds, c.tape, c.options.targetBytes)
    ensures r.Err? ==> TooLarge(c)
    ensures r.Ok? ==> NamesApart(c.used, c.records) && Resolved(c, r.value.0, r.value.1)
  {
    hide ToolSound, CurrentOk, SegmentsOk, AllReferenced, LibraryOk, ReuseOk, UsedOk, TapeOk, NamesDistinct, NoneEmpty,
         BlocksOk, AllStored, ById, NamesApart, FileTotal, Unmapped, Mapped, FreshUids, Frugal, SealedOnce,
         NamedByContent;
    NamesAreApart(c.tool, c.projectId, c.data, c.used, c.reuseIndex, c.reuseSegments, c.library, c.records, c.manifests,
                  c.kinds, c.tape, c.options.targetBytes);
    var segments := ListSegments(c.used, c.records);
    ByIdDistinct(segments);
    var ordinals := AssignOrdinals(segments);
    if ordinals.Err? {
      return Err(ordinals.error);
    }
    forall n | 0 <= n < |c.pending|
      ensures !Unmapped(c.pending[n], c.records, ordinals.value)
    {
      HasOrdinal(c, segments, ordinals.value, n);
    }
    var blocks := Remap(c.pending, c.records, ordinals.value);
    if blocks.Err? {
      return Err(InvalidInput);
    }
    assert Assigned(c, segments, blocks.value, ordinals.value);
    return Ok((segments, blocks.value));
  }

  ghost function StatsOf(s: Snapshot): StorageStats
    requires LedgerOk(s.segments, s.blocks)
  {
    var referenced := Compaction.SumLive(Referenced(s.blocks), Compaction.Stored);
    StorageStats(FileTotal(s.segments), referenced, PayloadTotal(s.segments) - referenced)
  }

  lemma AllMapped(c: BuildContext, s: Snapshot)
    requires c.Valid()
    requires AllStored(c.tool, c.projectId, c.data, c.records, c.manifests, c.kinds, c.tape, c.options.targetBytes)
    requires NamesApart(c.used, c.records) && Resolved(c, s.segments, s.blocks) && s.chunkIds == c.chunkIds
    ensures |s.chunkIds| == |s.blocks| == |c.plains| == |c.pending|
    ensures var library := Merged(c.library, c.records, c.manifests);
            && LibraryOk(c.tool, c.projectId, c.data, s.segments, library)
            && (forall n :: 0 <= n < |s.blocks| ==> BlockAt(c.tool, s, library, n))
            && SnapshotLines(s, library) == LinesOf(c.pending, c.plains, c.Here())
    ensures forall i :: 0 <= i < |s.segments| ==> SegmentNeeded(s, i)
  {
    assert |c.records| == |c.manifests|;
    hide BuildContext.Holding, AllStored, ById, BlockAt, LineAt, SegmentNeeded, NamesApart, Resolved, Mapped, Merged,
         Home, LibraryOk, SnapshotLines, LinesOf, Stored;
    BlocksMapped(c, s);
    SegmentsUsed(c, s);
    ResolvedStored(c, s);
  }

  lemma ResolvedStored(c: BuildContext, s: Snapshot)
    requires c.Valid()
    requires AllStored(c.tool, c.projectId, c.data, c.records, c.manifests, c.kinds, c.tape, c.options.targetBytes)
    requires NamesApart(c.used, c.records) && Resolved(c, s.segments, s.blocks)
    ensures |c.records| == |c.manifests|
    ensures LibraryOk(c.tool, c.projectId, c.data, s.segments, Merged(c.library, c.records, c.manifests))
  {
    assert |c.records| == |c.manifests|;
    hide BuildContext.Holding, AllStored, NamesApart, Assigned, Merged, LibraryOk, Listed;
    ListedStored(c, s.segments);
  }

  lemma BlocksMapped(c: BuildContext, s: Snapshot)
    requires c.Valid()
    requires AllStored(c.tool, c.projectId, c.data, c.records, c.manifests, c.kinds, c.tape, c.options.targetBytes)
    requires NamesApart(c.used, c.records) && Resolved(c, s.segments, s.blocks) && s.chunkIds == c.chunkIds
    ensures |s.chunkIds| == |s.blocks| == |c.plains| == |c.pending| && |c.records| == |c.manifests|
    ensures var library := Merged(c.library, c.records, c.manifests);
            && (forall n :: 0 <= n < |s.blocks| ==> BlockAt(c.tool, s, library, n))
            && SnapshotLines(s, library) == LinesOf(c.pending, c.plains, c.Here())
  {
    assert |c.records| == |c.manifests|;
    hide BuildContext.Holding, AllStored, ById, BlockAt, LineAt, NamesApart, Listed, Mapped, Merged, Home, LinesOf,
         SnapshotLines;
    var library, w := Merged(c.library, c.records, c.manifests), c.Here();
    AllPlaced(c, c.chunkIds);
    var ordinals :| Assigned(c, s.segments, s.blocks, ordinals);
    forall n | 0 <= n < |s.blocks|
      ensures BlockAt(c.tool, s, library, n)
           && LineAt(s, library, n) == Line(c.pending[n].reference.logicalOffset, Home(c.pending[n], w), c.plains[n])
    {
      RemappedBlock(c.tool, c, s, ordinals, n);
    }
    LinesAgree(s, library, c.pending, c.plains, w);
  }

  lemma LinesAgree(s: Snapshot, library: map<Bytes, Manifest>, pending: seq<PendingBlock>, plains: seq<Bytes>, w: World)
    requires |s.blocks| == |plains| == |pending|
    requires forall n :: 0 <= n < |s.blocks| ==>
               LineAt(s, library, n) == Line(pending[n].reference.logicalOffset, Home(pending[n], w), plains[n])
    ensures SnapshotLines(s, library) == LinesOf(pending, plains, w)
  {
    hide LineAt, Home;
  }

  lemma SegmentsUsed(c: BuildContext, s: Snapshot)
    requires c.Valid()
    requires AllStored(c.tool, c.projectId, c.data, c.records, c.manifests, c.kinds, c.tape, c.options.targetBytes)
    requires NamesApart(c.used, c.records) && Resolved(c, s.segments, s.blocks) && s.chunkIds == c.chunkIds
    ensures forall i :: 0 <= i < |s.segments| ==> SegmentNeeded(s, i)
  {
    assert |c.records| == |c.manifests|;
    hide BuildContext.Holding, AllStored, ById, SegmentNeeded, NamesApart, Listed, Mapped, Merged;
    var ordinals :| Assigned(c, s.segments, s.blocks, ordinals);
    forall i | 0 <= i < |s.segments|
      ensures SegmentNeeded(s, i)
    {
      ListedNeeded(c, s, ordinals, i);
    }
  }

  // ---------------------------------------------------------------------- stranded bytes

  /** Every block of a new segment is referenced. */
  lemma NewBlocksReferenced(c: BuildContext, s: Snapshot, ordinals: map<Bytes, nat>, i: nat, k: nat, o: nat)
    requires c.Valid() && Assigned(c, s.segments, s.blocks, ordinals) && i < |s.segments|
    requires k < |c.records| == |c.manifests|
    requires c.records[k] == Some(s.segments[i]) && o < |c.manifests[k]|
    ensures LeadsTo(s.blocks, i, o)
  {
    hide ToolSound, CurrentOk, SegmentsOk, LibraryOk, ReuseOk, UsedOk, TapeOk, NamesDistinct, NoneEmpty, BlocksOk,
         UsesSegment, Frugal, SealedOnce, NamedByContent;
    assert UsesBlock(c.pending, k, o);
    var n :| 0 <= n < |c.pending| && c.pending[n].locator == New(k) && c.pending[n].reference.segmentBlockOrdinal == o;
    assert Mapped(c.pending[n], c.records, ordinals, s.blocks[n]);
    assert s.blocks[n] in s.blocks;
  }

  /** What a release strands lies in segments carried over from the release before. */
  lemma StrandedCarriedOver(c: BuildContext, sequence: nat, s: Snapshot, l: Compaction.Live)
    requires c.Valid()
    requires AllStored(c.tool, c.projectId, c.data, c.records, c.manifests, c.kinds, c.tape, c.options.targetBytes)
    requires Written(c, sequence, s) && NamesApart(c.used, c.records)
    requires l in Physical(ManifestsOf(s.segments, Merged(c.library, c.records, c.manifests))) - Referenced(s.blocks)
    ensures l.segment < |s.segments| && s.segments[l.segment].id in c.used
  {
    hide BuildContext.Holding, AllStored, LineAt, SegmentNeeded, FileTotal, PayloadTotal, LibraryOk, Mapped, ById,
         Merged;
    var library := Merged(c.library, c.records, c.manifests);
    var ms := ManifestsOf(s.segments, library);
    PhysicalIs(ms, l);
    assert l == Compaction.Live(l.segment, l.block, ms[l.segment][l.block].storedLen, 0);
    var i, x := l.segment, s.segments[l.segment];
    assert x in s.segments;
    if x !in c.used.Values {
      var k :| 0 <= k < |c.records| && c.records[k] == Some(x);
      MergedNew(c.library, c.records, c.manifests, k);
      var ordinals :| Assigned(c, s.segments, s.blocks, ordinals);
      NewBlocksReferenced(c, s, ordinals, i, k, l.block);
      LeadsToReferenced(c, s, library, ms, i, l.block);
    }
  }

  lemma LeadsToReferenced(c: BuildContext, s: Snapshot, library: map<Bytes, Manifest>, ms: seq<Manifest>, i: nat,
                          o: nat)
    requires LeadsTo(s.blocks, i, o) && |s.chunkIds| == |s.blocks|
    requires (forall n :: 0 <= n < |s.blocks| ==> BlockAt(c.tool, s, library, n))
    requires ms == ManifestsOf(s.segments, library) && i < |s.segments| && o < |ms[i]|
    ensures Compaction.Live(i, o, ms[i][o].storedLen, 0) in Referenced(s.blocks)
  {
    var b :| b in s.blocks && b.segmentOrdinal == i && b.segmentBlockOrdinal == o;
    var n :| 0 <= n < |s.blocks| && s.blocks[n] == b;
    assert BlockAt(c.tool, s, library, n);
    assert LedgerOf(b) == Compaction.Live(i, o, ms[i][o].storedLen, 0);
  }

  /** A build that reuses no earlier segment strands nothing. */
  lemma FullBuildStrandsNothing(c: BuildContext, sequence: nat, s: Snapshot)
    requires c.Valid()
    requires AllStored(c.tool, c.projectId, c.data, c.records, c.manifests, c.kinds, c.tape, c.options.targetBytes)
    requires Written(c, sequence, s) && NamesApart(c.used, c.records)
    requires c.used == map[] && LedgerOk(s.segments, s.blocks)
    ensures StatsOf(s).stranded == 0
  {
    hide BuildContext.Holding, AllStored, LineAt, SegmentNeeded, FileTotal, PayloadTotal, LibraryOk, ById, Merged,
         NamesApart, BlockAt, LedgerOk, Backed, Compaction.SumLive, Physical, Resolved;
    var library := Merged(c.library, c.records, c.manifests);
    var ms := ManifestsOf(s.segments, library);
    SnapshotIsBacked(c.tool, c.projectId, c.data, library, s);
    Conservation(s.segments, s.blocks, ms);
    var stranded := Physical(ms) - Referenced(s.blocks);
    forall l | l in stranded
      ensures l.segment < |s.segments| && s.segments[l.segment].id in c.used
    {
      StrandedCarriedOver(c, sequence, s, l);
    }
    assert stranded == {};
    NothingSummed();
  }

  lemma NothingSummed()
    ensures Compaction.SumLive({}, Compaction.Stored) == 0
  {
  }
}
