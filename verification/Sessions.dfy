/** Clients of one asset: cursors, prefetching, and whole histories of operations in any order. */
module Sessions {
  import opened Basics
  import opened Wire
  import opened Records
  import opened BlockStore
  import opened AssetReader

  datatype SeekFrom = Start(value: nat) | End(delta: int) | Current(delta: int)

  /** What reading `n` bytes at `offset` must give. */
  function Slice(content: Bytes, offset: nat, n: nat): (s: Bytes)
    requires offset <= |content|
    ensures |s| == Min(|content| - offset, n) <= n
  {
    content[offset..offset + Min(|content| - offset, n)]
  }

  /** The position a seek asks for; it may lie outside the asset. */
  function Target(seek: SeekFrom, position: nat, len: nat): int {
    match seek
    case Start(value) => value
    case End(delta) => len + delta
    case Current(delta) => position + delta
  }

  class AssetCursor {
    const window: BlockWindow
    var position: nat

    constructor (package: Package, file: FileRecord, ghost content: Bytes)
      requires Tiles(file, package.release, content)
      ensures window.Valid() && window.package == package && window.file == file && window.content == content
      ensures position == 0 && fresh(window) && fresh(window.reader)
    {
      window := new BlockWindow(package, file, content);
      position := 0;
    }

    /** Reads on from the position and advances it by what was read; a failed read leaves it alone. */
    method Read(buffer: array<Byte>) returns (r: Result<nat>)
      requires window.Valid() && window.package.Valid()
      modifies this`position, window.Frame(), buffer
      ensures window.Valid() && window.package.Valid() && window.package.faults >= old(window.package.faults)
      ensures old(position) > |window.content| ==> r.Err?
      ensures r.Err? ==> position == old(position)
      ensures r.Err? && old(position) <= |window.content| ==> window.package.faults > old(window.package.faults)
      ensures r.Ok? ==>
                && old(position) <= |window.content| && position == old(position) + r.value
                && r.value == |Slice(window.content, old(position), buffer.Length)|
                && buffer[..] == Slice(window.content, old(position), buffer.Length) + old(buffer[..])[r.value..]
    {
      hide Tiles, Kept, ReaderSound, Release.Sound, Package.Valid, BothCover, BlockWindow.Holds, BlockWindow.Valid;
      window.LengthKnown();
      if position > window.file.logicalLen {
        return Err(InvalidInput);
      }
      r := window.ReadAt(position, buffer);
      if r.Ok? {
        position := position + r.value;
      }
    }

    /** Moves the position, computed without wrap-around; succeeds exactly for targets inside the asset. */
    method Seek(seek: SeekFrom) returns (r: Result<nat>)
      requires window.Valid()
      modifies this`position
      ensures var target := Target(seek, old(position), |window.content|);
              if 0 <= target <= |window.content| then r == Ok(target) && position == target
              else r == Err(InvalidInput) && position == old(position)
    {
      window.LengthKnown();
      var target := match seek
        case Start(value) => value
        case End(delta) => window.file.logicalLen + delta
        case Current(delta) => position + delta;
      if target < 0 || target >= U64_LIMIT {
        return Err(InvalidInput);
      }
      if target > window.file.logicalLen {
        return Err(InvalidInput);
      }
      position := target;
      return Ok(position);
    }
  }

  /** Decodes every block of a range into the prefetch cache, with buffers of its own. */
  method PrefetchRange(w: BlockWindow, offset: nat, len: nat) returns (r: Result<()>)
    requires w.Valid() && w.package.Valid()
    modifies w.package.Repr()
    ensures w.Valid() && w.package.Valid() && w.package.faults >= old(w.package.faults)
    ensures offset > |w.content| ==> r == Err(InvalidRange)
    ensures offset <= |w.content| && r.Err? ==> w.package.faults > old(w.package.faults)
    ensures r.Ok? ==> offset <= |w.content| && old(w.package.offered) <= w.package.offered
                      && Offers(w.package.offered, |old(w.package.offered)|, offset,
                                offset + Min(|w.content| - offset, len))
  {
    hide Tiles, Kept, ReaderSound, Release.Sound, Package.Valid, BothCover, BlockWindow.Holds, BlockWindow.Valid, OneOf,
         Release.Authentic, Release.Installed, HoldsItsPart, Offers;
    OffersNone(w.package.offered, |w.package.offered|, offset);
    w.LengthKnown();
    if offset > w.file.logicalLen {
      return Err(InvalidRange);
    }
    var requested := Min(w.file.logicalLen - offset, len);
    if requested == 0 {
      return Ok(());
    }
    var end := offset + requested;
    var logical := offset;
    var reader := new BlockReader();
    NoSegmentYet(w.package.release);
    while logical < end
      invariant w.Valid() && w.package.Valid() && w.package.faults >= old(w.package.faults)
      invariant ReaderSound(reader.segment, w.package.release)
      invariant fresh(reader) && reader != w.reader
      invariant old(w.package.offered) <= w.package.offered && offset <= logical
      invariant Offers(w.package.offered, |old(w.package.offered)|, offset, logical)
      decreases end - logical
    {
      var reference := w.ReferenceForOffset(logical);
      if reference.Err? {
        return Err(reference.error);
      }
      PackageSound(w.package);
      WindowTiles(w);
      BlockFacts(reference.value, w.file, w.package.release, w.content);
      ghost var before := w.package.offered;
      var done := w.package.PrefetchBlock(reference.value, w.file.access, reader);
      if done.Err? {
        return Err(done.error);
      }
      OffersMore(before, |old(w.package.offered)|, offset, logical, reference.value);
      logical := reference.value.logicalOffset + reference.value.plainLen;
    }
    OffersFewer(w.package.offered, |old(w.package.offered)|, offset, logical, end);
    return Ok(());
  }

  /** Every position from `lo` to `hi` is covered by a block taken up after the first `since`. */
  ghost predicate Offers(offered: seq<BlockRef>, since: nat, lo: nat, hi: nat) {
    forall p :: lo <= p < hi ==> OffersAt(offered, since, p)
  }

  ghost predicate OffersAt(offered: seq<BlockRef>, since: nat, p: nat) {
    exists i :: since <= i < |offered| && Covers(offered[i], p)
  }

  lemma OffersMore(offered: seq<BlockRef>, since: nat, lo: nat, hi: nat, b: BlockRef)
    requires since <= |offered| && Offers(offered, since, lo, hi) && Covers(b, hi)
    ensures Offers(offered + [b], since, lo, b.logicalOffset + b.plainLen)
  {
    var more := offered + [b];
    forall p: nat | lo <= p < b.logicalOffset + b.plainLen
      ensures OffersAt(more, since, p)
    {
      if p < hi {
        assert OffersAt(offered, since, p);
        var i :| since <= i < |offered| && Covers(offered[i], p);
        assert more[i] == offered[i];
      } else {
        assert more[|offered|] == b;
      }
    }
  }

  lemma OffersNone(offered: seq<BlockRef>, since: nat, lo: nat)
    ensures Offers(offered, since, lo, lo)
  {
  }

  lemma OffersFewer(offered: seq<BlockRef>, since: nat, lo: nat, hi: nat, end: nat)
    requires Offers(offered, since, lo, hi) && end <= hi
    ensures Offers(offered, since, lo, end)
  {
  }

  lemma NoSegmentYet(r: Release)
    ensures ReaderSound(None, r)
  {
  }

  lemma WindowTiles(w: BlockWindow)
    requires w.Valid()
    ensures Tiles(w.file, w.package.release, w.content)
  {
  }

  // ------------------------------------------------------------------- histories

  datatype Op =
    | ReadAt(offset: nat, len: nat)
    | CursorRead(len: nat)
    | Seek(to: SeekFrom)
    | Prefetch(offset: nat, len: nat)
    | Trim

  /** `Refused` is an argument outside the asset, `Failed` an operation given up because of storage. */
  datatype Outcome = Got(bytes: Bytes) | At(position: nat) | Done | Refused | Failed

  function NextPosition(op: Op, position: nat, outcome: Outcome): nat {
    match outcome
    case Got(bytes) => if op.CursorRead? then position + |bytes| else position
    case At(target) => target
    case _ => position
  }

  /** What an operation may answer, given the plaintext and the cursor position. */
  ghost predicate Allowed(content: Bytes, position: nat, op: Op, outcome: Outcome) {
    match op
    case ReadAt(offset, len) =>
      if offset > |content| then outcome == Refused
      else outcome == Failed || outcome == Got(Slice(content, offset, len))
    case CursorRead(len) =>
      position <= |content| && (outcome == Failed || outcome == Got(Slice(content, position, len)))
    case Seek(to) =>
      var target := Target(to, position, |content|);
      outcome == if 0 <= target <= |content| then At(target) else Refused
    case Prefetch(offset, _) =>
      if offset > |content| then outcome == Refused else outcome == Failed || outcome == Done
    case Trim => outcome == Done
  }

  /** The answers of a whole history, from a cursor position on. */
  ghost predicate Follows(content: Bytes, position: nat, ops: seq<Op>, outcomes: seq<Outcome>)
    decreases |ops|
  {
    && |ops| == |outcomes|
    && (|ops| > 0 ==>
          && Allowed(content, position, ops[0], outcomes[0])
          && Follows(content, NextPosition(ops[0], position, outcomes[0]), ops[1..], outcomes[1..]))
  }

  function PositionAfter(position: nat, ops: seq<Op>, outcomes: seq<Outcome>): nat
    requires |ops| == |outcomes|
    decreases |ops|
  {
    if ops == [] then position else PositionAfter(NextPosition(ops[0], position, outcomes[0]), ops[1..], outcomes[1..])
  }

  lemma {:induction false} FollowsOneMore(content: Bytes, position: nat, ops: seq<Op>, outcomes: seq<Outcome>, op: Op,
                                          outcome: Outcome)
    requires Follows(content, position, ops, outcomes)
    requires Allowed(content, PositionAfter(position, ops, outcomes), op, outcome)
    ensures Follows(content, position, ops + [op], outcomes + [outcome])
    ensures PositionAfter(position, ops + [op], outcomes + [outcome])
         == NextPosition(op, PositionAfter(position, ops, outcomes), outcome)
    decreases |ops|
  {
    if ops != [] {
      var next := NextPosition(ops[0], position, outcomes[0]);
      FollowsOneMore(content, next, ops[1..], outcomes[1..], op, outcome);
      assert (ops + [op])[1..] == ops[1..] + [op] && (outcomes + [outcome])[1..] == outcomes[1..] + [outcome];
    } else {
      assert [op][1..] == [] && [outcome][1..] == [];
    }
  }

  /** One operation on a session and a cursor that share a package. */
  method Perform(session: BlockWindow, cursor: AssetCursor, op: Op) returns (outcome: Outcome)
    requires Ready(session, cursor) && cursor.position <= |session.content|
    modifies cursor`position, session.Frame(), cursor.window.Frame()
    ensures Ready(session, cursor) && session.package.faults >= old(session.package.faults)
    ensures Allowed(session.content, old(cursor.position), op, outcome)
    ensures cursor.position == NextPosition(op, old(cursor.position), outcome) <= |session.content|
    ensures outcome == Failed ==> session.package.faults > old(session.package.faults)
  {
    hide Tiles, Kept, ReaderSound, Release.Sound, Package.Valid, BothCover, BlockWindow.Holds, BlockWindow.Valid;
    match op
    case ReadAt(offset, len) =>
      var buffer := new Byte[len](_ => 0);
      var r := session.ReadAt(offset, buffer);
      if r.Ok? {
        outcome := Got(buffer[..r.value]);
      } else {
        outcome := if offset > session.file.logicalLen then Refused else Failed;
        session.LengthKnown();
      }
    case CursorRead(len) =>
      var buffer := new Byte[len](_ => 0);
      var r := cursor.Read(buffer);
      outcome := if r.Ok? then Got(buffer[..r.value]) else Failed;
    case Seek(to) =>
      var r := cursor.Seek(to);
      outcome := if r.Ok? then At(r.value) else Refused;
    case Prefetch(offset, len) =>
      session.LengthKnown();
      var r := PrefetchRange(session, offset, len);
      outcome := if r.Ok? then Done else if offset > session.file.logicalLen then Refused else Failed;
    case Trim =>
      session.package.Trim();
      outcome := Done;
  }

  /** A session and a cursor over the same asset of the same package, with separate buffers. */
  ghost predicate Ready(session: BlockWindow, cursor: AssetCursor)
    reads session, session.reader, cursor, cursor.window, cursor.window.reader, session.package.Repr()
  {
    && session != cursor.window && session.reader != cursor.window.reader
    && cursor.window.package == session.package && cursor.window.file == session.file
    && cursor.window.content == session.content
    && session.Valid() && cursor.window.Valid() && session.package.Valid()
  }

  /** Any history of reads, cursor reads, seeks, prefetches and trims, with storage failing at will in
  between, answers as slicing the plaintext would; without storage failures every operation succeeds. */
  method RunHistory(session: BlockWindow, cursor: AssetCursor, ops: seq<Op>) returns (outcomes: seq<Outcome>)
    requires Ready(session, cursor) && cursor.position <= |session.content|
    modifies cursor`position, session.Frame(), cursor.window.Frame()
    ensures Ready(session, cursor)
    ensures Follows(session.content, old(cursor.position), ops, outcomes)
    ensures session.package.faults == old(session.package.faults) ==> Failed !in outcomes
  {
    hide Ready, Follows, Allowed, PositionAfter, NextPosition, Slice;
    outcomes := [];
    ghost var start := cursor.position;
    NothingYet(session.content, start);
    for i := 0 to |ops|
      invariant Ready(session, cursor) && cursor.position <= |session.content|
      invariant |outcomes| == i && Follows(session.content, start, ops[..i], outcomes)
      invariant cursor.position == PositionAfter(start, ops[..i], outcomes)
      invariant session.package.faults >= old(session.package.faults)
      invariant session.package.faults == old(session.package.faults) ==> Failed !in outcomes
    {
      var outcome := Perform(session, cursor, ops[i]);
      FollowsOneMore(session.content, start, ops[..i], outcomes, ops[i], outcome);
      assert ops[..i + 1] == ops[..i] + [ops[i]];
      outcomes := outcomes + [outcome];
    }
    assert ops[..|ops|] == ops;
  }

  lemma NothingYet(content: Bytes, position: nat)
    ensures Follows(content, position, [], []) && PositionAfter(position, [], []) == position
  {
  }

  // -------------------------------------------------------------- the streaming window

  datatype Span = Span(offset: nat, len: nat)

  ghost predicate Within(s: Span, content: Bytes, a: Option<CursorBlock>, b: Option<CursorBlock>) {
    s.offset <= |content| && BothCover(a, b, s.offset, s.offset + Min(|content| - s.offset, s.len))
  }

  /** A streaming session that loads the block at `p` and then the one at `q` keeps both. */
  method LoadTwo(session: BlockWindow, p: nat, q: nat) returns (r: Result<()>)
    requires session.Valid() && session.package.Valid() && session.file.access == Streaming
    requires p < |session.content| && q < |session.content|
    modifies session.Frame()
    ensures session.Valid() && session.package.Valid() && session.package.faults >= old(session.package.faults)
    ensures r.Err? ==> session.package.faults > old(session.package.faults)
    ensures r.Ok? ==> CoveredBy(session.current, q) && (CoveredBy(session.current, p) || CoveredBy(session.previous, p))
  {
    hide Tiles, Kept, ReaderSound, Release.Sound, Package.Valid, BothCover, BlockWindow.Valid, Covers;
    r := session.EnsureCovered(p);
    if r.Ok? {
      r := session.EnsureCovered(q);
    }
  }

  /** Any reads within the two kept blocks, forwards or backwards, succeed and load nothing. */
  method ReadWithinTwo(session: BlockWindow, spans: seq<Span>) returns (results: seq<Bytes>)
    requires session.Valid() && session.package.Valid()
    requires forall i :: 0 <= i < |spans| ==> Within(spans[i], session.content, session.current, session.previous)
    modifies session.Frame()
    ensures session.Valid() && session.package.Valid()
    ensures session.package.loads == old(session.package.loads)
    ensures session.Holds(old(session.current), old(session.previous))
    ensures |results| == |spans|
    ensures forall i :: 0 <= i < |spans| ==>
              spans[i].offset <= |session.content|
              && results[i] == Slice(session.content, spans[i].offset, spans[i].len)
  {
    hide Tiles, Kept, ReaderSound, Release.Sound, Package.Valid, BlockWindow.Valid, BothCover, Within, Slice;
    results := [];
    for k := 0 to |spans|
      invariant session.Valid() && session.package.Valid() && |results| == k
      invariant session.package.loads == old(session.package.loads)
      invariant session.Holds(old(session.current), old(session.previous))
      invariant forall i :: 0 <= i < k ==> spans[i].offset <= |session.content|
                                           && results[i] == Slice(session.content, spans[i].offset, spans[i].len)
    {
      var span := spans[k];
      WithinEither(span, session.content, session.current, session.previous, old(session.current),
                   old(session.previous));
      var bytes := ReadWithin(session, span);
      results := results + [bytes];
    }
  }

  method ReadWithin(session: BlockWindow, span: Span) returns (bytes: Bytes)
    requires session.Valid() && session.package.Valid()
    requires Within(span, session.content, session.current, session.previous)
    modifies session.Frame()
    ensures session.Valid() && session.package.Valid() && span.offset <= |session.content|
    ensures session.package.loads == old(session.package.loads)
    ensures session.Holds(old(session.current), old(session.previous))
    ensures bytes == Slice(session.content, span.offset, span.len)
  {
    hide Tiles, Kept, ReaderSound, Release.Sound, Package.Valid, BlockWindow.Valid, BothCover, BlockWindow.Holds;
    var buffer := new Byte[span.len](_ => 0);
    var r := session.ReadAt(span.offset, buffer);
    return buffer[..r.value];
  }

  lemma WithinEither(s: Span, content: Bytes, a: Option<CursorBlock>, b: Option<CursorBlock>,
                     c: Option<CursorBlock>, d: Option<CursorBlock>)
    requires Within(s, content, c, d) && ((a == c && b == d) || (a == d && b == c))
    ensures Within(s, content, a, b)
  {
  }
}
