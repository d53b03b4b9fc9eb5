/** Random access, cursors and prefetching over one asset: every read agrees with slicing the plaintext. */
module AssetReader {
  import opened Basics
  import opened Wire
  import opened Records
  import opened BlockStore
  import opened Arithmetic

  // ------------------------------------------------------------------ the block map

  /** Block `j` of the asset. */
  function BlockOf(file: FileRecord, r: Release, j: nat): BlockRef
    requires file.firstBlock + j < |r.blocks|
  {
    r.blocks[file.firstBlock + j]
  }

  /** The block's plaintext is its part of the asset. */
  ghost predicate HoldsItsPart(b: BlockRef, r: Release, content: Bytes) {
    && KeyOf(b) in r.truth && b.plainLen > 0 && b.logicalOffset + b.plainLen <= |content|
    && content[b.logicalOffset..b.logicalOffset + b.plainLen] == r.truth[KeyOf(b)]
  }

  /** The block ends where the next one starts, or with the asset. */
  ghost predicate Abuts(file: FileRecord, r: Release, content: Bytes, j: nat)
    requires file.firstBlock + file.blockCount <= |r.blocks| && j < file.blockCount
  {
    BlockOf(file, r, j).logicalOffset + BlockOf(file, r, j).plainLen
    == if j + 1 < file.blockCount then BlockOf(file, r, j + 1).logicalOffset else |content|
  }

  ghost predicate AtMultiple(file: FileRecord, r: Release, j: nat)
    requires file.firstBlock + file.blockCount <= |r.blocks| && j < file.blockCount
  {
    BlockOf(file, r, j).logicalOffset == j * file.fixedBlockLen && BlockOf(file, r, j).plainLen <= file.fixedBlockLen
  }

  /** The asset's blocks tile its plaintext in order; a fixed layout puts block `j` at `j` block lengths. */
  ghost predicate Tiles(file: FileRecord, r: Release, content: Bytes) {
    && file.logicalLen == |content| < U64_LIMIT
    && file.firstBlock + file.blockCount <= |r.blocks| && file.firstBlock + file.blockCount < U32_LIMIT
    && (file.blockCount == 0 <==> |content| == 0)
    && (forall j :: 0 <= j < file.blockCount ==> HoldsItsPart(BlockOf(file, r, j), r, content))
    && (file.blockCount > 0 ==> BlockOf(file, r, 0).logicalOffset == 0)
    && (forall j :: 0 <= j < file.blockCount ==> Abuts(file, r, content, j))
    && (file.layout == Fixed && |content| > 0 ==>
          file.fixedBlockLen > 0 && (forall j :: 0 <= j < file.blockCount ==> AtMultiple(file, r, j)))
  }

  predicate Covers(b: BlockRef, position: nat) {
    b.logicalOffset <= position < b.logicalOffset + b.plainLen
  }

  /** The last block that starts at or before an offset covers it. */
  lemma LastStartCovers(file: FileRecord, r: Release, content: Bytes, j: nat, offset: nat)
    requires Tiles(file, r, content) && j < file.blockCount && offset < |content|
    requires BlockOf(file, r, j).logicalOffset <= offset
    requires j + 1 < file.blockCount ==> offset < BlockOf(file, r, j + 1).logicalOffset
    ensures Covers(BlockOf(file, r, j), offset)
  {
    assert Abuts(file, r, content, j);
  }

  /** Division finds the covering block of a fixed layout: `j` is the quotient of the offset by the block length. */
  lemma QuotientCovers(file: FileRecord, r: Release, content: Bytes, offset: nat, j: nat)
    requires Tiles(file, r, content) && file.layout == Fixed && offset < |content|
    requires j * file.fixedBlockLen <= offset < j * file.fixedBlockLen + file.fixedBlockLen
    ensures j < file.blockCount && Covers(BlockOf(file, r, j), offset)
  {
    assert file.blockCount > 0;
    hide Tiles;
    BlockPlace(file, r, content, file.blockCount - 1);
    QuotientAmong(offset, |content|, file.fixedBlockLen, j, file.blockCount - 1);
    BlockPlace(file, r, content, j);
    LastStartCovers(file, r, content, j, offset);
  }

  lemma QuotientAmong(offset: nat, len: nat, b: nat, j: nat, last: nat)
    requires offset < len <= last * b + b && j * b <= offset
    ensures j <= last
  {
    if last < j {
      LaterMultiple(last, j, b);
    }
  }

  lemma FixedLength(file: FileRecord, r: Release, content: Bytes)
    requires Tiles(file, r, content) && file.layout == Fixed && |content| > 0
    ensures file.fixedBlockLen > 0
  {
  }

  lemma BlockPlace(file: FileRecord, r: Release, content: Bytes, j: nat)
    requires Tiles(file, r, content) && file.layout == Fixed && |content| > 0 && j < file.blockCount
    ensures file.firstBlock + file.blockCount <= |r.blocks| && file.fixedBlockLen > 0
    ensures BlockOf(file, r, j).logicalOffset == j * file.fixedBlockLen
    ensures j + 1 == file.blockCount ==> |content| <= j * file.fixedBlockLen + file.fixedBlockLen
    ensures j + 1 < file.blockCount ==>
              BlockOf(file, r, j + 1).logicalOffset == j * file.fixedBlockLen + file.fixedBlockLen
  {
    assert AtMultiple(file, r, j) && Abuts(file, r, content, j);
    if j + 1 < file.blockCount {
      assert AtMultiple(file, r, j + 1);
      NextMultiple(j, file.fixedBlockLen);
    }
  }

  lemma NextMultiple(j: nat, b: nat)
    ensures (j + 1) * b == j * b + b
  {
  }

  // ------------------------------------------------------------------- the window

  datatype CursorBlock = CursorBlock(reference: BlockRef, data: BlockData)

  ghost predicate OneOf(b: BlockRef, file: FileRecord, r: Release) {
    exists j :: 0 <= j < file.blockCount && file.firstBlock + j < |r.blocks| && b == BlockOf(file, r, j)
  }

  /** A kept block is one of the asset's and holds its true plaintext. */
  ghost predicate Kept(c: CursorBlock, file: FileRecord, r: Release) {
    && OneOf(c.reference, file, r)
    && KeyOf(c.reference) in r.truth && c.data.Content() == r.truth[KeyOf(c.reference)]
  }

  predicate CoveredBy(c: Option<CursorBlock>, position: nat) {
    c.Some? && Covers(c.value.reference, position)
  }

  /** The state a session or cursor keeps between reads of one asset: the current block, for streaming
  assets the one before it, and the decode buffers. */
  class BlockWindow {
    const package: Package
    const file: FileRecord
    ghost const content: Bytes
    const reader: BlockReader
    var current: Option<CursorBlock>
    var previous: Option<CursorBlock>

    ghost predicate Valid()
      reads this, reader
    {
      && Tiles(file, package.release, content)
      && ReaderSound(reader.segment, package.release)
      && (current.Some? ==> Kept(current.value, file, package.release))
      && (previous.Some? ==> Kept(previous.value, file, package.release))
    }

    constructor (package: Package, file: FileRecord, ghost content: Bytes)
      requires Tiles(file, package.release, content)
      ensures Valid() && this.package == package && this.file == file && this.content == content
      ensures current == None && previous == None && fresh(reader)
    {
      this.package, this.file, this.content := package, file, content;
      reader := new BlockReader();
      current, previous := None, None;
    }

    /** Binary search for the last block that starts at or before `offset`. */
    method SearchBlock(offset: nat) returns (r: Result<nat>)
      requires Valid() && package.Valid() && offset < |content|
      modifies package`faults, package`accesses, package.pageCache
      ensures package.Valid() && package.faults >= old(package.faults)
      ensures r.Err? ==> package.faults > old(package.faults)
      ensures r.Ok? ==> r.value < file.blockCount && Covers(BlockOf(file, package.release, r.value), offset)
    {
      hide Kept, ReaderSound, HoldsItsPart, Abuts, AtMultiple, Release.Sound, Package.Valid;
      var low: nat, high: nat := 0, file.blockCount;
      while low < high
        invariant low <= high <= file.blockCount && package.Valid() && package.faults >= old(package.faults)
        invariant low > 0 ==> BlockOf(file, package.release, low - 1).logicalOffset <= offset
        invariant high < file.blockCount ==> offset < BlockOf(file, package.release, high).logicalOffset
      {
        var mid := low + (high - low) / 2;
        if file.firstBlock + mid >= U32_LIMIT {
          return Err(InvalidRange);
        }
        var probe := package.FindReference(file.firstBlock + mid);
        if probe.Err? {
          return Err(probe.error);
        }
        if probe.value.logicalOffset <= offset {
          low := mid + 1;
        } else {
          high := mid;
        }
      }
      LastStartCovers(file, package.release, content, low - 1, offset);
      return Ok(low - 1);
    }

    /** Direct indexing for a fixed layout, binary search for a content-defined one. */
    method ReferenceForOffset(offset: nat) returns (r: Result<BlockRef>)
      requires Valid() && package.Valid() && offset < |content|
      modifies package`faults, package`accesses, package.pageCache
      ensures package.Valid() && package.faults >= old(package.faults)
      ensures r.Err? ==> package.faults > old(package.faults)
      ensures r.Ok? ==> Covers(r.value, offset) && OneOf(r.value, file, package.release)
    {
      hide Kept, ReaderSound, Abuts, AtMultiple, Release.Sound, Package.Valid;
      if file.blockCount == 0 {
        return Err(InvalidFormat);
      }
      var local: nat := 0;
      if file.layout == Fixed {
        FixedLength(file, package.release, content);
        local := offset / file.fixedBlockLen;
        QuotientBounds(offset, file.fixedBlockLen);
        QuotientCovers(file, package.release, content, offset, local);
        if local >= U32_LIMIT {
          return Err(InvalidRange);
        }
      } else {
        var found := SearchBlock(offset);
        if found.Err? {
          return Err(found.error);
        }
        local := found.value;
      }
      if local >= file.blockCount {
        return Err(InvalidFormat);
      }
      var reference := package.FindReference(file.firstBlock + local);
      if reference.Err? {
        return reference;
      }
      assert HoldsItsPart(BlockOf(file, package.release, local), package.release, content);
      var end := reference.value.logicalOffset + reference.value.plainLen;
      if end >= U64_LIMIT {
        return Err(InvalidRange);
      }
      if offset < reference.value.logicalOffset || offset >= end {
        return Err(InvalidFormat);
      }
      return reference;
    }

    /** Everything a read may change outside its destination. */
    ghost function Frame(): set<object> {
      {this, reader} + package.Repr()
    }

    /** The two kept blocks, in either order. */
    ghost predicate Holds(a: Option<CursorBlock>, b: Option<CursorBlock>)
      reads this
    {
      (current == a && previous == b) || (current == b && previous == a)
    }

    /** Makes `position` covered by the current block: by keeping it, by swapping in the previous one, or
    by one load, which for a streaming asset keeps the block that was current. */
    method EnsureCovered(position: nat) returns (r: Result<()>)
      requires Valid() && package.Valid() && position < |content|
      modifies Frame()
      ensures Valid() && package.Valid() && package.faults >= old(package.faults)
      ensures r.Err? ==> package.faults > old(package.faults)
      ensures r.Ok? ==> CoveredBy(current, position)
      ensures CoveredBy(old(current), position) || CoveredBy(old(previous), position) ==>
                r.Ok? && package.loads == old(package.loads) && Holds(old(current), old(previous))
      ensures r.Ok? && !CoveredBy(old(current), position) && !CoveredBy(old(previous), position)
              && file.access == Streaming ==>
                previous == old(current)
    {
      hide Kept, ReaderSound, Release.Sound, Package.Valid, Release.Authentic, Release.Installed, Tiles, OneOf, Covers;
      if CoveredBy(current, position) {
        return Ok(());
      }
      if CoveredBy(previous, position) {
        current, previous := previous, current;
        return Ok(());
      }
      var reference := ReferenceForOffset(position);
      if reference.Err? {
        return Err(reference.error);
      }
      if file.access == Streaming {
        if previous.Some? {
          reader.Recycle(previous.value.data);
        }
        previous := current;
        current := None;
      } else {
        if current.Some? {
          reader.Recycle(current.value.data);
        }
        current := None;
      }
      PackageSound(package);
      BlockFacts(reference.value, file, package.release, content);
      var data := package.LoadBlock(reference.value, file.access, reader);
      if data.Err? {
        return Err(data.error);
      }
      KeptLoaded(reference.value, data.value, file, package.release);
      current := Some(CursorBlock(reference.value, data.value));
      return Ok(());
    }

    /** Copies from the current block what it has of the `requested` bytes still missing at `offset + written`. */
    method CopyFromCurrent(destination: array<Byte>, offset: nat, written: nat, requested: nat, ghost original: Bytes)
      returns (amount: nat)
      requires Valid() && package.Valid() && offset + requested <= |content|
      requires written < requested <= destination.Length
      requires CoveredBy(current, offset + written) && |original| == destination.Length
      requires Filled(destination[..], content, original, offset, written)
      modifies destination
      ensures Valid() && package.Valid()
      ensures 0 < amount <= requested - written
      ensures Filled(destination[..], content, original, offset, written + amount)
    {
      hide Kept, ReaderSound, Release.Sound, Package.Valid, Package.Repr, Tiles;
      var block := current.value;
      NotInPackage(destination);
      PackageSound(package);
      KeptPart(block, file, package.release, content);
      var within := offset + written - block.reference.logicalOffset;
      var bytes := block.data.Content();
      amount := Min(|bytes| - within, requested - written);
      ghost var before := destination[..];
      forall i | 0 <= i < amount {
        destination[written + i] := bytes[within + i];
      }
      CopiedPart(before, destination[..], content, original, offset, written, amount, bytes, within);
    }

    /** Reads up to `destination.Length` bytes at `offset`. When the two kept blocks already cover them, no
    block is loaded and the same two stay kept. */
    method ReadAt(offset: nat, destination: array<Byte>) returns (r: Result<nat>)
      requires Valid() && package.Valid()
      modifies Frame(), destination
      ensures Valid() && package.Valid() && package.faults >= old(package.faults)
      ensures offset > |content| ==> r == Err(InvalidRange) && destination[..] == old(destination[..])
      ensures r.Err? && offset <= |content| ==> package.faults > old(package.faults)
      ensures r.Ok? ==> offset <= |content| && r.value == Min(|content| - offset, destination.Length)
                        && destination[..] == content[offset..offset + r.value] + old(destination[..])[r.value..]
      ensures offset <= |content|
              && BothCover(old(current), old(previous), offset,
                           offset + Min(|content| - offset, destination.Length)) ==>
                r.Ok? && package.loads == old(package.loads) && Holds(old(current), old(previous))
    {
      hide Tiles, Kept, ReaderSound, Release.Sound, Package.Valid, BothCover, Holds, Valid;
      LengthKnown();
      NotShared(destination);
      if offset > file.logicalLen {
        return Err(InvalidRange);
      }
      var requested := Min(file.logicalLen - offset, destination.Length);
      ghost var original := destination[..];
      assert original == content[offset..offset] + original[0..];
      if requested == 0 {
        HeldAsIs();
        return Ok(0);
      }
      r := Fill(offset, destination, requested, original);
    }

    /** The read loop: block by block, each made current first. */
    method Fill(offset: nat, destination: array<Byte>, requested: nat, ghost original: Bytes) returns (r: Result<nat>)
      requires Valid() && package.Valid() && 0 < requested <= destination.Length && offset + requested <= |content|
      requires original == destination[..]
      modifies Frame(), destination
      ensures Valid() && package.Valid() && package.faults >= old(package.faults)
      ensures r.Err? ==> package.faults > old(package.faults)
      ensures r.Ok? ==> r.value == requested && Filled(destination[..], content, original, offset, requested)
      ensures BothCover(old(current), old(previous), offset, offset + requested) ==>
                r.Ok? && package.loads == old(package.loads) && Holds(old(current), old(previous))
    {
      hide *;
      NotShared(destination);
      FilledNone(original, content, offset);
      HeldAsIs();
      ghost var served := BothCover(current, previous, offset, offset + requested);
      var written: nat := 0;
      while written < requested
        invariant written <= requested
        invariant Valid() && package.Valid() && package.faults >= old(package.faults)
        invariant Filled(destination[..], content, original, offset, written)
        invariant served ==> package.loads == old(package.loads) && Holds(old(current), old(previous))
      {
        if served {
          HeldCovers(old(current), old(previous), offset, offset + requested, offset + written);
        }
        ghost var a, b := current, previous;
        var covered := EnsureCovered(offset + written);
        if served {
          HeldAgain(old(current), old(previous), a, b);
        }
        if covered.Err? {
          return Err(covered.error);
        }
        var amount := CopyFromCurrent(destination, offset, written, requested, original);
        written := written + amount;
      }
      return Ok(written);
    }

    lemma LengthKnown()
      requires Valid()
      ensures file.logicalLen == |content|
    {
    }

    lemma NotShared(destination: array<Byte>)
      ensures destination !in Frame()
      ensures reader in Frame()
    {
    }

    lemma NotInPackage(destination: array<Byte>)
      ensures destination !in package.Repr()
    {
    }

    lemma HeldAsIs()
      ensures Holds(current, previous)
    {
    }

    lemma HeldAgain(a: Option<CursorBlock>, b: Option<CursorBlock>, c: Option<CursorBlock>, d: Option<CursorBlock>)
      requires (c == a && d == b) || (c == b && d == a)
      requires Holds(c, d)
      ensures Holds(a, b)
    {
    }

    lemma HeldCovers(a: Option<CursorBlock>, b: Option<CursorBlock>, lo: nat, hi: nat, p: nat)
      requires Holds(a, b) && BothCover(a, b, lo, hi) && lo <= p < hi
      ensures CoveredBy(current, p) || CoveredBy(previous, p)
      ensures (current == a && previous == b) || (current == b && previous == a)
    {
    }
  }

  ghost predicate BothCover(a: Option<CursorBlock>, b: Option<CursorBlock>, lo: nat, hi: nat) {
    forall p :: lo <= p < hi ==> CoveredBy(a, p) || CoveredBy(b, p)
  }

  /** The first `written` bytes are those of the asset from `offset` on, the rest are untouched. */
  ghost predicate Filled(bytes: Bytes, content: Bytes, original: Bytes, offset: nat, written: nat) {
    && offset + written <= |content| && written <= |original|
    && bytes == content[offset..offset + written] + original[written..]
  }

  lemma FilledNone(original: Bytes, content: Bytes, offset: nat)
    requires offset <= |content|
    ensures Filled(original, content, original, offset, 0)
  {
  }

  lemma PackageSound(package: Package)
    requires package.Valid()
    ensures package.release.Sound()
  {
  }

  lemma KeptLoaded(reference: BlockRef, data: BlockData, file: FileRecord, r: Release)
    requires OneOf(reference, file, r) && KeyOf(reference) in r.truth && data.Content() == r.truth[KeyOf(reference)]
    ensures Kept(CursorBlock(reference, data), file, r)
  {
  }

  /** A kept block's bytes are its part of the asset. */
  lemma KeptPart(c: CursorBlock, file: FileRecord, r: Release, content: Bytes)
    requires Kept(c, file, r) && Tiles(file, r, content) && r.Sound()
    ensures var b := c.reference;
            && |c.data.Content()| == b.plainLen > 0 && b.logicalOffset + b.plainLen <= |content|
            && c.data.Content() == content[b.logicalOffset..b.logicalOffset + b.plainLen]
  {
    hide Tiles, Release.Sound;
    BlockFacts(c.reference, file, r, content);
  }

  lemma CopiedPart(before: Bytes, after: Bytes, content: Bytes, original: Bytes, offset: nat, written: nat, amount: nat,
                   bytes: Bytes, within: nat)
    requires offset + written <= |content| && written + amount <= |original| == |before| == |after|
    requires before == content[offset..offset + written] + original[written..]
    requires within + amount <= |bytes| && within <= offset + written
    requires offset + written - within + |bytes| <= |content|
    requires bytes == content[offset + written - within..offset + written - within + |bytes|]
    requires forall i :: 0 <= i < |after| ==>
               after[i] == if written <= i < written + amount then bytes[within + (i - written)] else before[i]
    ensures after == content[offset..offset + (written + amount)] + original[written + amount..]
  {
  }

  /** What the loader needs of a block of the asset, and where its plaintext belongs. */
  lemma BlockFacts(b: BlockRef, file: FileRecord, r: Release, content: Bytes)
    requires Tiles(file, r, content) && r.Sound() && OneOf(b, file, r)
    ensures r.Authentic(b) && r.Installed(b) && HoldsItsPart(b, r, content) && |r.truth[KeyOf(b)]| == b.plainLen
  {
    hide Release.Authentic, Release.Installed;
    AuthenticBlock(b, file, r, content);
    AuthenticLength(r, b);
  }

  lemma AuthenticBlock(b: BlockRef, file: FileRecord, r: Release, content: Bytes)
    requires Tiles(file, r, content) && r.Sound() && OneOf(b, file, r)
    ensures r.Authentic(b) && r.Installed(b) && HoldsItsPart(b, r, content)
  {
    hide Release.Authentic, Release.Installed, HoldsItsPart;
    var j :| 0 <= j < file.blockCount && file.firstBlock + j < |r.blocks| && b == BlockOf(file, r, j);
    assert HoldsItsPart(BlockOf(file, r, j), r, content);
  }
}
