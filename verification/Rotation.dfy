/** How many segments a build creates: each class has one open segment, and one that is full was worth its draw. */
module Rotation {
  import opened Basics
  import SetSums
  import opened Records
  import opened BlockStore
  import opened Sources
  import opened SegmentStore
  import opened Placement

  /** Two availabilities by four kinds of access. */
  const CLASSES: nat := 8

  /** What the chunks take up at most once sealed. */
  function SealedLen(plains: seq<Bytes>): nat {
    if plains == [] then 0 else SealedLen(plains[..|plains| - 1]) + |plains[|plains| - 1]| + TAG_SIZE
  }

  function ActiveBytes(active: seq<ActiveSegment>): nat {
    if active == [] then 0 else ActiveBytes(active[..|active| - 1]) + active[|active| - 1].writer.payloadLen
  }

  function ActiveBlocks(active: seq<ActiveSegment>): nat {
    if active == [] then 0 else ActiveBlocks(active[..|active| - 1]) + active[|active| - 1].writer.blockCount
  }

  function StoredAll(manifests: seq<Manifest>): nat {
    if manifests == [] then 0
    else StoredAll(manifests[..|manifests| - 1]) + StoredTotal(manifests[|manifests| - 1])
  }

  function BlockTotal(manifests: seq<Manifest>): nat {
    if manifests == [] then 0 else BlockTotal(manifests[..|manifests| - 1]) + |manifests[|manifests| - 1]|
  }

  /** No class has a smaller target. */
  function LeastTarget(configured: nat): (t: nat)
    ensures t > 0
  {
    Max(1, Min(configured, HOT_SEGMENT_TARGET))
  }

  /** The segments that a build of these chunks creates at most. */
  function SegmentsFor(plains: seq<Bytes>, configured: nat): (count: nat)
    ensures count <= |plains|
  {
    Min(|plains|, CLASSES + Share(2 * SealedLen(plains), LeastTarget(configured)))
  }

  function Share(x: nat, t: nat): nat
    requires t > 0
  {
    x / t
  }

  /** Every segment but the open ones and those closed at the end was followed by a block that it had no room for.
  `extra` bytes are about to be written. */
  ghost predicate Rotated(manifests: seq<Manifest>, active: seq<ActiveSegment>, closed: nat, configured: nat,
                          extra: nat) {
    && LeastTarget(configured) * (|manifests| - |active| - closed) + ActiveBytes(active)
       <= 2 * StoredAll(manifests) + extra
    && ActiveBytes(active) <= StoredAll(manifests) && ActiveBlocks(active) <= BlockTotal(manifests)
    && |active| + closed <= CLASSES
  }

  ghost predicate Frugal(manifests: seq<Manifest>, active: seq<ActiveSegment>, closed: nat, configured: nat,
                         plains: seq<Bytes>) {
    && Rotated(manifests, active, closed, configured, 0)
    && |manifests| <= |plains| && StoredAll(manifests) <= SealedLen(plains) && BlockTotal(manifests) <= |plains|
  }

  // -------------------------------------------------------------------------- sums

  lemma {:induction false} ActiveMember(active: seq<ActiveSegment>, p: nat)
    requires p < |active|
    ensures active[p].writer.payloadLen <= ActiveBytes(active) && active[p].writer.blockCount <= ActiveBlocks(active)
  {
    if p < |active| - 1 {
      ActiveMember(active[..|active| - 1], p);
    }
  }

  lemma {:induction false} ActiveUpdate(active: seq<ActiveSegment>, p: nat, a: ActiveSegment)
    requires p < |active|
    ensures ActiveBytes(active[p := a])
         == ActiveBytes(active) - active[p].writer.payloadLen + a.writer.payloadLen
    ensures ActiveBlocks(active[p := a])
         == ActiveBlocks(active) - active[p].writer.blockCount + a.writer.blockCount
  {
    var n := |active| - 1;
    if p < n {
      ActiveUpdate(active[..n], p, a);
      assert active[p := a][..n] == active[..n][p := a];
    } else {
      assert active[p := a][..n] == active[..n];
    }
  }

  lemma ActiveAppend(active: seq<ActiveSegment>, a: ActiveSegment)
    ensures ActiveBytes(active + [a]) == ActiveBytes(active) + a.writer.payloadLen
    ensures ActiveBlocks(active + [a]) == ActiveBlocks(active) + a.writer.blockCount
  {
    assert (active + [a])[..|active|] == active;
  }

  lemma ActiveSwapRemoved(active: seq<ActiveSegment>, p: nat)
    requires p < |active|
    ensures |SwapRemove(active, p)| == |active| - 1
    ensures ActiveBytes(SwapRemove(active, p)) == ActiveBytes(active) - active[p].writer.payloadLen
    ensures ActiveBlocks(SwapRemove(active, p)) == ActiveBlocks(active) - active[p].writer.blockCount
  {
    var n := |active| - 1;
    SwapRemoved(active, p);
    if p < n {
      ActiveUpdate(active[..n], p, active[n]);
      assert SwapRemove(active, p) == active[..n][p := active[n]];
    } else {
      assert SwapRemove(active, p) == active[..n];
    }
  }

  lemma {:induction false} StoredUpdate(manifests: seq<Manifest>, i: nat, m: Manifest)
    requires i < |manifests|
    ensures StoredAll(manifests[i := m]) == StoredAll(manifests) - StoredTotal(manifests[i]) + StoredTotal(m)
    ensures BlockTotal(manifests[i := m]) == BlockTotal(manifests) - |manifests[i]| + |m|
  {
    hide StoredTotal;
    var n := |manifests| - 1;
    if i < n {
      StoredUpdate(manifests[..n], i, m);
      assert manifests[i := m][..n] == manifests[..n][i := m];
    } else {
      assert manifests[i := m][..n] == manifests[..n];
    }
  }

  lemma StoredAppendEmpty(manifests: seq<Manifest>)
    ensures StoredAll(manifests + [[]]) == StoredAll(manifests)
    ensures BlockTotal(manifests + [[]]) == BlockTotal(manifests)
  {
    assert (manifests + [[]])[..|manifests|] == manifests;
  }

  lemma SealedAppend(plains: seq<Bytes>, plain: Bytes)
    ensures SealedLen(plains + [plain]) == SealedLen(plains) + |plain| + TAG_SIZE
  {
    assert (plains + [plain])[..|plains|] == plains;
  }

  lemma {:induction false} SealedMore(plains: seq<Bytes>, more: seq<Bytes>)
    ensures SealedLen(plains) <= SealedLen(plains + more)
  {
    if more == [] {
      assert plains + more == plains;
    } else {
      var n := |more| - 1;
      SealedMore(plains, more[..n]);
      assert plains + more == (plains + more[..n]) + [more[n]];
      SealedAppend(plains + more[..n], more[n]);
    }
  }

  // ------------------------------------------------------------------------- classes

  function ClassNumber(kind: SegmentClass): (n: nat)
    ensures n < CLASSES
  {
    (if kind.availability.Required? then 0 else 4)
    + match kind.access case Hot => 0 case Normal => 1 case Streaming => 2 case Transient => 3
  }

  ghost function Numbers(active: seq<ActiveSegment>): set<nat> {
    if active == [] then {} else Numbers(active[..|active| - 1]) + {ClassNumber(active[|active| - 1].kind)}
  }

  lemma {:induction false} NumbersAre(active: seq<ActiveSegment>, kind: SegmentClass)
    requires ClassNumber(kind) in Numbers(active)
    ensures exists p :: 0 <= p < |active| && active[p].kind == kind
  {
    var n := |active| - 1;
    if ClassNumber(kind) in Numbers(active[..n]) {
      NumbersAre(active[..n], kind);
    } else {
      assert active[n].kind == kind;
    }
  }

  lemma {:induction false} ClassNumbers(active: seq<ActiveSegment>)
    requires forall p, q :: 0 <= p < q < |active| ==> active[p].kind != active[q].kind
    ensures |Numbers(active)| == |active| && forall k :: k in Numbers(active) ==> k < CLASSES
  {
    if active != [] {
      var n := |active| - 1;
      ClassNumbers(active[..n]);
      if ClassNumber(active[n].kind) in Numbers(active[..n]) {
        NumbersAre(active[..n], active[n].kind);
      }
    }
  }

  /** There are no more open segments than classes, and fewer while a class has none. */
  lemma FewOpen(active: seq<ActiveSegment>, kind: SegmentClass)
    requires forall p, q :: 0 <= p < q < |active| ==> active[p].kind != active[q].kind
    ensures |active| <= CLASSES
    ensures (forall p :: 0 <= p < |active| ==> active[p].kind != kind) ==> |active| < CLASSES
  {
    var all: set<nat> := {0, 1, 2, 3, 4, 5, 6, 7};
    ClassNumbers(active);
    SetSums.SubsetSize(Numbers(active), all);
    if forall p :: 0 <= p < |active| ==> active[p].kind != kind {
      if ClassNumber(kind) in Numbers(active) {
        NumbersAre(active, kind);
      }
      SetSums.SubsetSize(Numbers(active), all - {ClassNumber(kind)});
    }
  }

  // --------------------------------------------------------------------------- steps

  lemma TargetAtLeast(kind: SegmentClass, configured: nat, filled: nat)
    requires filled > TargetBytes(kind, configured)
    ensures filled >= LeastTarget(configured)
  {
  }

  /** A segment without room for the next block is closed. */
  lemma RotatedFinish(manifests: seq<Manifest>, active: seq<ActiveSegment>, closed: nat, configured: nat, p: nat,
                      storedLen: nat)
    requires Rotated(manifests, active, closed, configured, 0) && p < |active|
    requires active[p].writer.payloadLen + storedLen > TargetBytes(active[p].kind, configured)
    ensures Rotated(manifests, SwapRemove(active, p), closed, configured, storedLen)
  {
    hide TargetBytes, LeastTarget;
    TargetAtLeast(active[p].kind, configured, active[p].writer.payloadLen + storedLen);
    ActiveSwapRemoved(active, p);
    hide ActiveBytes, ActiveBlocks, StoredAll, BlockTotal, SwapRemove;
    var fewer := SwapRemove(active, p);
    OneMoreTime(LeastTarget(configured), |manifests| - |active| - closed);
    assert |manifests| - |fewer| - closed == |manifests| - |active| - closed + 1;
  }

  lemma OneMoreTime(t: nat, k: int)
    ensures t * (k + 1) == t * k + t
  {
  }

  lemma RotatedStart(manifests: seq<Manifest>, active: seq<ActiveSegment>, closed: nat, configured: nat, extra: nat,
                     a: ActiveSegment)
    requires Rotated(manifests, active, closed, configured, extra) && |active| + closed < CLASSES
    requires a.writer.payloadLen == a.writer.blockCount == 0
    ensures Rotated(manifests + [[]], active + [a], closed, configured, extra)
  {
    StoredAppendEmpty(manifests);
    ActiveAppend(active, a);
  }

  lemma RotatedWrite(manifests: seq<Manifest>, active: seq<ActiveSegment>, closed: nat, configured: nat, p: nat,
                     a: ActiveSegment, i: nat, m: Manifest, storedLen: nat)
    requires Rotated(manifests, active, closed, configured, storedLen) && p < |active| && i < |manifests|
    requires StoredTotal(m) == StoredTotal(manifests[i]) + storedLen && |m| == |manifests[i]| + 1
    requires a.writer.payloadLen == active[p].writer.payloadLen + storedLen
    requires a.writer.blockCount == active[p].writer.blockCount + 1
    ensures Rotated(manifests[i := m], active[p := a], closed, configured, 0)
    ensures StoredAll(manifests[i := m]) == StoredAll(manifests) + storedLen
    ensures BlockTotal(manifests[i := m]) == BlockTotal(manifests) + 1
  {
    hide LeastTarget, StoredAll, BlockTotal, ActiveBytes, ActiveBlocks, StoredTotal;
    StoredUpdate(manifests, i, m);
    ActiveUpdate(active, p, a);
  }

  lemma RotatedFlush(manifests: seq<Manifest>, active: seq<ActiveSegment>, closed: nat, configured: nat, p: nat)
    requires Rotated(manifests, active, closed, configured, 0) && p < |active|
    ensures Rotated(manifests, SwapRemove(active, p), closed + 1, configured, 0)
  {
    ActiveSwapRemoved(active, p);
  }

  lemma AtMost(t: nat, k: int, x: nat)
    requires t > 0 && t * k <= x
    ensures k <= x / t
  {
    var d := k - x / t;
    assert x == t * (x / t) + x % t;
    assert t * d == t * k - t * (x / t);
    assert d >= 1 ==> t * (d - 1) >= 0;
    assert t * (d - 1) == t * d - t;
  }

  lemma TimesGrows(t: nat, a: int, b: int)
    requires a <= b
    ensures t * a <= t * b
  {
    assert t * (b - a) >= 0;
    assert t * (b - a) == t * b - t * a;
  }

  /** Of `n` things all but `open` cost `t` each, which `x` pays for. */
  lemma PaidFor(t: nat, n: nat, open: nat, most: nat, x: nat)
    requires t > 0 && open <= most && t * (n - open) <= x
    ensures n <= most + x / t
  {
    TimesGrows(t, n - most, n - open);
    AtMost(t, n - most, x);
  }

  lemma OpenedAtMost(manifests: seq<Manifest>, active: seq<ActiveSegment>, closed: nat, configured: nat, extra: nat,
                     most: nat)
    requires Rotated(manifests, active, closed, configured, extra) && |active| + closed <= most
    ensures |manifests| <= most + (2 * StoredAll(manifests) + extra) / LeastTarget(configured)
  {
    RotatedCost(manifests, active, closed, configured, extra);
    hide *;
    PaidFor(LeastTarget(configured), |manifests|, |active| + closed, most, 2 * StoredAll(manifests) + extra);
  }

  lemma RotatedCost(manifests: seq<Manifest>, active: seq<ActiveSegment>, closed: nat, configured: nat, extra: nat)
    requires Rotated(manifests, active, closed, configured, extra)
    ensures LeastTarget(configured) * (|manifests| - (|active| + closed)) <= 2 * StoredAll(manifests) + extra
  {
    hide LeastTarget, StoredAll, ActiveBytes, ActiveBlocks, BlockTotal;
    assert |manifests| - |active| - closed == |manifests| - (|active| + closed);
  }

  lemma Divides(x: nat, y: nat, t: nat)
    requires x <= y && t > 0
    ensures x / t <= y / t
  {
    assert x == t * (x / t) + x % t;
    AtMost(t, x / t, y);
  }

  /** A build has created no more segments than its chunks account for. */
  lemma SegmentCount(manifests: seq<Manifest>, active: seq<ActiveSegment>, closed: nat, configured: nat,
                     plains: seq<Bytes>)
    requires Frugal(manifests, active, closed, configured, plains)
    ensures |manifests| <= SegmentsFor(plains, configured)
  {
    OpenedAtMost(manifests, active, closed, configured, 0, CLASSES);
    Divides(2 * StoredAll(manifests), 2 * SealedLen(plains), LeastTarget(configured));
  }

  /** More than a build of these chunks may need: draws, the bytes of one segment file, or blocks. */
  ghost predicate Overloaded(draws: nat, configured: nat, plains: seq<Bytes>) {
    || draws < SegmentsFor(plains, configured) || SEGMENT_HEADER_SIZE + SealedLen(plains) >= U64_LIMIT
    || |plains| >= U32_LIMIT
  }

  lemma OverloadedMore(draws: nat, configured: nat, plains: seq<Bytes>, more: seq<Bytes>)
    requires Overloaded(draws, configured, plains)
    ensures Overloaded(draws, configured, plains + more)
  {
    hide LeastTarget;
    SealedMore(plains, more);
    Divides(2 * SealedLen(plains), 2 * SealedLen(plains + more), LeastTarget(configured));
  }

  /** A word cannot count the bytes or the blocks of a segment. */
  ghost predicate Overfull(manifests: seq<Manifest>, storedLen: nat) {
    SEGMENT_HEADER_SIZE + StoredAll(manifests) + storedLen >= U64_LIMIT || BlockTotal(manifests) + 1 >= U32_LIMIT
  }

  /** Why no writer with room for the next block can be had, or the block not be written. */
  ghost predicate Cramped(draws: nat, configured: nat, manifests: seq<Manifest>, storedLen: nat) {
    || (draws <= |manifests|
        && |manifests| + 1 <= CLASSES + 2 * (StoredAll(manifests) + storedLen) / LeastTarget(configured))
    || Overfull(manifests, storedLen)
  }

  lemma CrampedMore(draws: nat, configured: nat, manifests: seq<Manifest>, storedLen: nat, more: nat)
    requires Cramped(draws, configured, manifests, storedLen) && storedLen <= more
    ensures Cramped(draws, configured, manifests, more)
  {
    hide LeastTarget;
    Divides(2 * (StoredAll(manifests) + storedLen), 2 * (StoredAll(manifests) + more), LeastTarget(configured));
  }

  lemma CrampedIsOverloaded(draws: nat, manifests: seq<Manifest>, active: seq<ActiveSegment>, closed: nat,
                            configured: nat, plains: seq<Bytes>, plain: Bytes)
    requires Frugal(manifests, active, closed, configured, plains)
    requires Cramped(draws, configured, manifests, |plain| + TAG_SIZE)
    ensures Overloaded(draws, configured, plains + [plain])
  {
    hide LeastTarget, Rotated;
    SealedAppend(plains, plain);
    Divides(2 * (StoredAll(manifests) + |plain| + TAG_SIZE), 2 * SealedLen(plains + [plain]), LeastTarget(configured));
  }

  /** The draws are used up although another segment is needed. */
  lemma DrawsUsedUp(draws: nat, manifests: seq<Manifest>, active: seq<ActiveSegment>, configured: nat,
                    storedLen: nat)
    requires Rotated(manifests, active, 0, configured, storedLen) && |active| < CLASSES && draws <= |manifests|
    ensures Cramped(draws, configured, manifests, storedLen)
  {
    hide LeastTarget;
    OpenedAtMost(manifests, active, 0, configured, storedLen, CLASSES - 1);
    Divides(2 * StoredAll(manifests) + storedLen, 2 * (StoredAll(manifests) + storedLen), LeastTarget(configured));
  }

  lemma FrugalMore(manifests: seq<Manifest>, active: seq<ActiveSegment>, closed: nat, configured: nat,
                   plains: seq<Bytes>, plain: Bytes)
    requires Frugal(manifests, active, closed, configured, plains)
    ensures Frugal(manifests, active, closed, configured, plains + [plain])
  {
    hide Rotated;
    SealedAppend(plains, plain);
  }
}
