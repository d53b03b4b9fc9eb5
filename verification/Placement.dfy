/** Where the blocks of a build lie and what they hold, as values. */
module Placement {
  import opened Basics
  import opened Records
  import opened BlockStore
  import opened Sources
  import opened SegmentStore

  datatype ReusableBlock = ReusableBlock(block: BlockRef, segmentOrdinal: nat)

  datatype Locator = Existing(id: Bytes) | New(index: nat)

  datatype PendingBlock = PendingBlock(locator: Locator, reference: BlockRef)

  /** The randomness of one new segment. */
  datatype Draw = Draw(uid: Bytes, salt: Bytes, noncePrefix: Bytes)

  datatype NewSegment = NewSegment(draw: Draw, availability: Availability, blockCount: nat, payloadLen: nat,
                                   payload: Bytes)

  datatype ActiveSegment = ActiveSegment(kind: SegmentClass, index: nat, writer: NewSegment)

  type ReuseIndex = map<(Bytes, Availability), ReusableBlock>

  type CurrentReuse = map<(Bytes, SegmentClass), PendingBlock>

  /** All that a locator can mean: the manifests of earlier segments by name, the earlier segments in use,
  and the manifests and classes of the new segments by index. */
  datatype World = World(library: map<Bytes, Manifest>, used: map<Bytes, SegmentRecord>, manifests: seq<Manifest>,
                         kinds: seq<SegmentClass>)

  predicate Placed(p: PendingBlock, w: World) {
    match p.locator
    case Existing(id) => id in w.used && id in w.library && Located(p.reference, w.library[id])
    case New(i) => i < |w.manifests| && i < |w.kinds| && Located(p.reference, w.manifests[i])
  }

  function PlainOf(p: PendingBlock, w: World): Bytes {
    match p.locator
    case Existing(id) => if id in w.library then PlainAt(p.reference, w.library[id]) else []
    case New(i) => if i < |w.manifests| then PlainAt(p.reference, w.manifests[i]) else []
  }

  /** The availability of the segment that holds the block. */
  function Home(p: PendingBlock, w: World): Availability {
    match p.locator
    case Existing(id) => if id in w.used then w.used[id].availability else Required
    case New(i) => if i < |w.kinds| then w.kinds[i].availability else Required
  }

  /** The block holds `plain` in a segment of the given availability. */
  predicate Gives(p: PendingBlock, plain: Bytes, availability: Availability, w: World) {
    Placed(p, w) && PlainOf(p, w) == plain && Home(p, w) == availability
  }

  ghost predicate Grows(w: World, v: World) {
    && w.library == v.library
    && (forall id :: id in w.used ==> id in v.used && v.used[id] == w.used[id])
    && |w.manifests| <= |v.manifests| && (forall i :: 0 <= i < |w.manifests| ==> w.manifests[i] <= v.manifests[i])
    && w.kinds <= v.kinds
  }

  lemma GivesStays(p: PendingBlock, plain: Bytes, availability: Availability, w: World, v: World)
    requires Gives(p, plain, availability, w) && Grows(w, v)
    ensures Gives(p, plain, availability, v)
  {
  }

  lemma GrowsOn(u: World, w: World, v: World)
    requires Grows(u, w) && Grows(w, v)
    ensures Grows(u, v)
  {
  }

  lemma GrowsSelf(w: World)
    ensures Grows(w, w)
  {
  }

  /** A reference is about where the block lies, not about where in an asset it belongs. */
  lemma MovedGives(p: PendingBlock, offset: nat, plain: Bytes, availability: Availability, w: World)
    requires Gives(p, plain, availability, w)
    ensures Gives(p.(reference := p.reference.(logicalOffset := offset)), plain, availability, w)
  {
  }

  // --------------------------------------------------------------------- invariants

  /** The pending blocks hold the chunks, in order, and the chunk names are theirs. */
  ghost predicate BlocksOk(t: Tool, pending: seq<PendingBlock>, ids: seq<Bytes>, plains: seq<Bytes>, w: World) {
    && |pending| == |ids| == |plains|
    && (forall n :: 0 <= n < |pending| ==>
          Gives(pending[n], plains[n], Home(pending[n], w), w) && ids[n] == t.hash(plains[n]))
  }

  lemma BlocksStay(t: Tool, pending: seq<PendingBlock>, ids: seq<Bytes>, plains: seq<Bytes>, w: World, v: World)
    requires BlocksOk(t, pending, ids, plains, w) && Grows(w, v)
    ensures BlocksOk(t, pending, ids, plains, v)
    ensures forall n :: 0 <= n < |pending| ==> Home(pending[n], v) == Home(pending[n], w)
  {
    hide Grows;
    forall n | 0 <= n < |pending|
      ensures Gives(pending[n], plains[n], Home(pending[n], w), v)
    {
      GivesStays(pending[n], plains[n], Home(pending[n], w), w, v);
    }
  }

  /** The blocks found again within this build: each under the name of its plaintext and in its class. */
  ghost predicate CurrentOk(t: Tool, current: CurrentReuse, w: World) {
    forall key :: key in current ==>
      t.hash(PlainOf(current[key], w)) == key.0 && Gives(current[key], PlainOf(current[key], w), key.1.availability, w)
  }

  lemma CurrentStays(t: Tool, current: CurrentReuse, w: World, v: World)
    requires CurrentOk(t, current, w) && Grows(w, v)
    ensures CurrentOk(t, current, v)
  {
    hide Grows;
    forall key | key in current
      ensures t.hash(PlainOf(current[key], v)) == key.0
      ensures Gives(current[key], PlainOf(current[key], v), key.1.availability, v)
    {
      GivesStays(current[key], PlainOf(current[key], w), key.1.availability, w, v);
    }
  }

  lemma CurrentWith(t: Tool, current: CurrentReuse, w: World, key: (Bytes, SegmentClass), p: PendingBlock, plain: Bytes)
    requires CurrentOk(t, current, w) && Gives(p, plain, key.1.availability, w) && t.hash(plain) == key.0
    ensures CurrentOk(t, current[key := p], w)
  {
  }

  /** The segments of the previous release, with what they hold. */
  ghost predicate LibraryOk(t: Tool, projectId: Bytes, data: map<Bytes, Bytes>, segments: seq<SegmentRecord>,
                            library: map<Bytes, Manifest>) {
    forall i :: 0 <= i < |segments| ==>
      segments[i].id in library && Stored(t, projectId, data, segments[i], library[segments[i].id])
  }

  lemma LibraryStays(t: Tool, projectId: Bytes, data: map<Bytes, Bytes>, more: map<Bytes, Bytes>,
                     segments: seq<SegmentRecord>, library: map<Bytes, Manifest>)
    requires LibraryOk(t, projectId, data, segments, library) && Extends(data, more)
    ensures LibraryOk(t, projectId, more, segments, library)
  {
    hide Stored;
    forall i | 0 <= i < |segments|
      ensures Stored(t, projectId, more, segments[i], library[segments[i].id])
    {
      StoredNamed(t, projectId, data, segments[i], library[segments[i].id]);
      StoredStays(t, projectId, data, more, segments[i], library[segments[i].id]);
    }
  }

  lemma StoredNamed(t: Tool, projectId: Bytes, data: map<Bytes, Bytes>, s: SegmentRecord, m: Manifest)
    requires Stored(t, projectId, data, s, m)
    ensures s.id in data
  {
  }

  /** The blocks offered for reuse: each under the name of its plaintext and its segment's availability. */
  ghost predicate ReuseOk(t: Tool, index: ReuseIndex, segments: seq<SegmentRecord>, library: map<Bytes, Manifest>) {
    forall key :: key in index ==> ReusableOk(t, key, index[key], segments, library)
  }

  ghost predicate ReusableOk(t: Tool, key: (Bytes, Availability), r: ReusableBlock, segments: seq<SegmentRecord>,
                             library: map<Bytes, Manifest>) {
    && r.segmentOrdinal < |segments| && segments[r.segmentOrdinal].id in library
    && segments[r.segmentOrdinal].availability == key.1
    && Located(r.block, library[segments[r.segmentOrdinal].id])
    && t.hash(PlainAt(r.block, library[segments[r.segmentOrdinal].id])) == key.0
  }

  /** Every earlier segment in use is one of the previous release with a block on offer. */
  ghost predicate UsedOk(used: map<Bytes, SegmentRecord>, index: ReuseIndex, segments: seq<SegmentRecord>) {
    forall id :: id in used ==> used[id].id == id && used[id] in segments && Offered(used[id], index, segments)
  }

  ghost predicate Offered(s: SegmentRecord, index: ReuseIndex, segments: seq<SegmentRecord>) {
    exists key :: key in index && index[key].segmentOrdinal < |segments| && segments[index[key].segmentOrdinal] == s
  }

  /** A segment is full, or has one block only. */
  predicate Bounded(m: Manifest, target: nat) {
    |m| <= 1 || StoredTotal(m) <= target
  }

  ghost predicate WriterOk(t: Tool, a: ActiveSegment, m: Manifest, tape: seq<Draw>, configured: nat) {
    && a.index < |tape| && a.writer.draw == tape[a.index] && a.writer.availability == a.kind.availability
    && Holds(t, a.writer.draw.uid, a.writer.payload, m)
    && a.writer.blockCount == |m| < U32_LIMIT && a.writer.payloadLen == |a.writer.payload| < U64_LIMIT
    && Bounded(m, TargetBytes(a.kind, configured))
  }

  ghost predicate FinishedOk(t: Tool, projectId: Bytes, data: map<Bytes, Bytes>, s: SegmentRecord, m: Manifest,
                             kind: SegmentClass, draw: Draw, configured: nat) {
    && Stored(t, projectId, data, s, m) && s.uid == draw.uid && s.availability == kind.availability
    && Bounded(m, TargetBytes(kind, configured))
  }

  /** A finished segment of more than one block is no larger than its class allows. */
  lemma FinishedWithinClass(t: Tool, projectId: Bytes, data: map<Bytes, Bytes>, s: SegmentRecord, m: Manifest,
                            kind: SegmentClass, draw: Draw, configured: nat)
    requires FinishedOk(t, projectId, data, s, m, kind, draw, configured)
    ensures s.blockCount <= 1 || WithinClass(kind.access, s.payloadLen, configured)
  {
    hide Holds, SegmentFile, EncodeSegmentHeader, TargetBytes;
    HoldsLength(t, s.uid, data[s.id][SEGMENT_HEADER_SIZE..], m);
    TargetExactlyWhen(kind, s.payloadLen, configured);
  }

  /** The new segments: one writer for each unfinished one, at most one writer of a class, and every
  finished one on disk as recorded. */
  ghost predicate SegmentsOk(t: Tool, projectId: Bytes, data: map<Bytes, Bytes>, records: seq<Option<SegmentRecord>>,
                             active: seq<ActiveSegment>, manifests: seq<Manifest>, kinds: seq<SegmentClass>,
                             tape: seq<Draw>, configured: nat) {
    && |records| == |manifests| == |kinds| <= |tape|
    && (forall p :: 0 <= p < |active| ==> ActiveAt(t, records, active, manifests, kinds, tape, configured, p))
    && (forall p, q :: 0 <= p < q < |active| ==> active[p].kind != active[q].kind && active[p].index != active[q].index)
    && (forall i :: 0 <= i < |records| ==>
          if records[i].Some? then FinishedOk(t, projectId, data, records[i].value, manifests[i], kinds[i], tape[i],
                                              configured)
          else HasWriter(active, i))
  }

  ghost predicate ActiveAt(t: Tool, records: seq<Option<SegmentRecord>>, active: seq<ActiveSegment>,
                           manifests: seq<Manifest>, kinds: seq<SegmentClass>, tape: seq<Draw>, configured: nat, p: nat)
    requires p < |active| && |records| == |manifests| == |kinds|
  {
    var a := active[p];
    a.index < |records| && records[a.index].None? && kinds[a.index] == a.kind
    && WriterOk(t, a, manifests[a.index], tape, configured)
  }

  ghost predicate HasWriter(active: seq<ActiveSegment>, i: nat) {
    exists p :: 0 <= p < |active| && active[p].index == i
  }

  /** No writer is left without a block. */
  ghost predicate NoneEmpty(active: seq<ActiveSegment>) {
    forall p :: 0 <= p < |active| ==> active[p].writer.blockCount > 0
  }

  /** Nothing is kept without need: every earlier segment in use and every new block has a pending block. */
  ghost predicate AllReferenced(pending: seq<PendingBlock>, w: World) {
    && (forall id :: id in w.used ==> UsesSegment(pending, id))
    && (forall i, o :: 0 <= i < |w.manifests| && 0 <= o < |w.manifests[i]| ==> UsesBlock(pending, i, o))
  }

  ghost predicate UsesSegment(pending: seq<PendingBlock>, id: Bytes) {
    exists n :: 0 <= n < |pending| && pending[n].locator == Existing(id)
  }

  ghost predicate UsesBlock(pending: seq<PendingBlock>, i: nat, o: nat) {
    exists n :: 0 <= n < |pending| && pending[n].locator == New(i) && pending[n].reference.segmentBlockOrdinal == o
  }

  lemma UsesMore(pending: seq<PendingBlock>, p: PendingBlock)
    ensures forall id :: UsesSegment(pending, id) ==> UsesSegment(pending + [p], id)
    ensures forall i: nat, o: nat :: UsesBlock(pending, i, o) ==> UsesBlock(pending + [p], i, o)
    ensures p.locator.Existing? ==> UsesSegment(pending + [p], p.locator.id)
    ensures p.locator.New? ==> UsesBlock(pending + [p], p.locator.index, p.reference.segmentBlockOrdinal)
  {
    var more := pending + [p];
    assert more[|pending|] == p;
    forall id | UsesSegment(pending, id)
      ensures UsesSegment(more, id)
    {
      var n :| 0 <= n < |pending| && pending[n].locator == Existing(id);
      assert more[n] == pending[n];
    }
    forall i: nat, o: nat | UsesBlock(pending, i, o)
      ensures UsesBlock(more, i, o)
    {
      var n :| 0 <= n < |pending| && pending[n].locator == New(i) && pending[n].reference.segmentBlockOrdinal == o;
      assert more[n] == pending[n];
    }
  }

  // -------------------------------------------------------------- steps on new segments

  lemma SegmentsStay(t: Tool, projectId: Bytes, data: map<Bytes, Bytes>, more: map<Bytes, Bytes>,
                     records: seq<Option<SegmentRecord>>, active: seq<ActiveSegment>, manifests: seq<Manifest>,
                     kinds: seq<SegmentClass>, tape: seq<Draw>, configured: nat)
    requires SegmentsOk(t, projectId, data, records, active, manifests, kinds, tape, configured) && Extends(data, more)
    ensures SegmentsOk(t, projectId, more, records, active, manifests, kinds, tape, configured)
  {
    hide Stored, WriterOk, TargetBytes, Bounded;
    forall i | 0 <= i < |records| && records[i].Some?
      ensures FinishedOk(t, projectId, more, records[i].value, manifests[i], kinds[i], tape[i], configured)
    {
      StoredNamed(t, projectId, data, records[i].value, manifests[i]);
      StoredStays(t, projectId, data, more, records[i].value, manifests[i]);
    }
  }

  /** A new segment starts empty, with a writer of its own. */
  lemma SegmentStarted(t: Tool, projectId: Bytes, data: map<Bytes, Bytes>, records: seq<Option<SegmentRecord>>,
                       active: seq<ActiveSegment>, manifests: seq<Manifest>, kinds: seq<SegmentClass>, tape: seq<Draw>,
                       configured: nat, kind: SegmentClass)
    requires SegmentsOk(t, projectId, data, records, active, manifests, kinds, tape, configured)
    requires |records| < |tape| && (forall p :: 0 <= p < |active| ==> active[p].kind != kind)
    ensures SegmentsOk(t, projectId, data, records + [None],
                       active + [ActiveSegment(kind, |records|,
                                               NewSegment(tape[|records|], kind.availability, 0, 0, []))],
                       manifests + [[]], kinds + [kind], tape, configured)
  {
    hide Stored, TargetBytes;
    var a := ActiveSegment(kind, |records|, NewSegment(tape[|records|], kind.availability, 0, 0, []));
    var active', records', manifests', kinds' := active + [a], records + [None], manifests + [[]], kinds + [kind];
    HoldsNothing(t, a.writer.draw.uid);
    assert WriterOk(t, a, [], tape, configured);
    forall p | 0 <= p < |active'|
      ensures ActiveAt(t, records', active', manifests', kinds', tape, configured, p)
    {
      hide WriterOk;
      if p < |active| {
        assert ActiveAt(t, records, active, manifests, kinds, tape, configured, p);
      }
    }
    forall p, q | 0 <= p < q < |active'|
      ensures active'[p].kind != active'[q].kind && active'[p].index != active'[q].index
    {
      assert ActiveAt(t, records, active, manifests, kinds, tape, configured, p);
    }
    forall i | 0 <= i < |records'| && records'[i].None?
      ensures HasWriter(active', i)
    {
      if i < |records| {
        var p :| 0 <= p < |active| && active[p].index == i;
        assert active'[p].index == i;
      } else {
        assert active'[|active|].index == i;
      }
    }
  }

  /** One more block for the writer at `p`. */
  lemma BlockWritten(t: Tool, projectId: Bytes, data: map<Bytes, Bytes>, records: seq<Option<SegmentRecord>>,
                     active: seq<ActiveSegment>, manifests: seq<Manifest>, kinds: seq<SegmentClass>, tape: seq<Draw>,
                     configured: nat, p: nat, a: ActiveSegment, m: Manifest)
    requires SegmentsOk(t, projectId, data, records, active, manifests, kinds, tape, configured)
    requires p < |active| && a.index == active[p].index < |manifests| && a.kind == active[p].kind
    requires WriterOk(t, a, m, tape, configured)
    ensures SegmentsOk(t, projectId, data, records, active[p := a], manifests[a.index := m], kinds, tape, configured)
  {
    hide Stored, WriterOk, TargetBytes, Bounded, FinishedOk;
    assert ActiveAt(t, records, active, manifests, kinds, tape, configured, p);
    var active', manifests' := active[p := a], manifests[a.index := m];
    forall q | 0 <= q < |active'|
      ensures ActiveAt(t, records, active', manifests', kinds, tape, configured, q)
    {
      assert ActiveAt(t, records, active, manifests, kinds, tape, configured, q);
      if q != p {
        assert active[q].index != active[p].index;
      }
    }
    forall i | 0 <= i < |records| && records[i].None?
      ensures HasWriter(active', i)
    {
      var q :| 0 <= q < |active| && active[q].index == i;
      assert active'[q].index == i;
    }
  }

  /** Removes the element at `p` by moving the last one there. */
  function SwapRemove<T>(s: seq<T>, p: nat): seq<T>
    requires p < |s|
  {
    if p == |s| - 1 then s[..p] else s[p := s[|s| - 1]][..|s| - 1]
  }

  lemma SwapRemoved<T>(s: seq<T>, p: nat)
    requires p < |s|
    ensures |SwapRemove(s, p)| == |s| - 1
    ensures forall q :: 0 <= q < |s| - 1 ==> SwapRemove(s, p)[q] == if q == p then s[|s| - 1] else s[q]
  {
  }

  /** The writer at `p` is finished: its segment is recorded and the writer is gone. */
  lemma SegmentFinished(t: Tool, projectId: Bytes, data: map<Bytes, Bytes>, records: seq<Option<SegmentRecord>>,
                        active: seq<ActiveSegment>, manifests: seq<Manifest>, kinds: seq<SegmentClass>, tape: seq<Draw>,
                        configured: nat, p: nat, s: SegmentRecord)
    requires SegmentsOk(t, projectId, data, records, active, manifests, kinds, tape, configured) && p < |active|
    requires active[p].index < |records|
    requires FinishedOk(t, projectId, data, s, manifests[active[p].index], kinds[active[p].index],
                        tape[active[p].index], configured)
    ensures SegmentsOk(t, projectId, data, records[active[p].index := Some(s)], SwapRemove(active, p), manifests, kinds,
                       tape, configured)
  {
    hide FinishedOk, WriterOk;
    SwapRemoved(active, p);
    var records', active' := records[active[p].index := Some(s)], SwapRemove(active, p);
    forall q | 0 <= q < |active'|
      ensures ActiveAt(t, records', active', manifests, kinds, tape, configured, q)
    {
      var o := if q == p then |active| - 1 else q;
      assert ActiveAt(t, records, active, manifests, kinds, tape, configured, o);
      assert active[o].index != active[p].index;
    }
    forall i | 0 <= i < |records'| && records'[i].None?
      ensures HasWriter(active', i)
    {
      var o :| 0 <= o < |active| && active[o].index == i;
      assert active'[if o == |active| - 1 then p else o].index == i;
    }
  }
}
