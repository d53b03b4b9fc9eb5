/** Comparing a source file with its packaged asset, byte for byte in bounded pieces. */
module Comparing {
  import opened Basics
  import opened Records
  import opened BlockStore
  import opened AssetReader
  import opened Sessions
  import opened Sources
  import Packing

  const COMPARE_BUFFER_BYTES: nat := 1024 * 1024

  /** Fills a piece from a cursor, however little each read delivers; it is short only at the end of the asset. */
  method ReadPiece(cursor: AssetCursor, capacity: nat) returns (r: Result<Bytes>)
    requires cursor.window.Valid() && cursor.window.package.Valid() && cursor.position <= |cursor.window.content|
    modifies cursor`position, cursor.window.Frame()
    ensures cursor.window.Valid() && cursor.window.package.Valid() && cursor.position <= |cursor.window.content|
    ensures cursor.window.package.faults >= old(cursor.window.package.faults)
    ensures r.Err? ==> cursor.window.package.faults > old(cursor.window.package.faults)
    ensures r.Ok? ==> r.value == Slice(cursor.window.content, old(cursor.position), capacity)
                      && cursor.position == old(cursor.position) + |r.value|
  {
    hide Tiles, Kept, ReaderSound, Release.Sound, Package.Valid, BothCover, BlockWindow.Holds, BlockWindow.Valid;
    var w := cursor.window;
    ghost var start := cursor.position;
    var filled: Bytes := [];
    while |filled| < capacity
      invariant w.Valid() && w.package.Valid() && w.package.faults >= old(w.package.faults)
      invariant cursor.position == start + |filled| <= |w.content| && |filled| <= capacity
      invariant filled == w.content[start..start + |filled|]
      decreases capacity - |filled|
    {
      var buffer := new Byte[capacity - |filled|](_ => 0);
      ghost var at := cursor.position;
      var read := cursor.Read(buffer);
      if read.Err? {
        return Err(read.error);
      }
      if read.value == 0 {
        break;
      }
      PieceExtended(w.content, start, filled, buffer[..], at, buffer.Length, read.value);
      filled := filled + buffer[..read.value];
    }
    return Ok(filled);
  }

  lemma PieceExtended(content: Bytes, start: nat, filled: Bytes, buffer: Bytes, at: nat, capacity: nat, read: nat)
    requires at == start + |filled| <= |content| && filled == content[start..at]
    requires read == |Slice(content, at, capacity)| <= |buffer|
    requires buffer[..read] == Slice(content, at, capacity)
    ensures at + read <= |content| && filled + buffer[..read] == content[start..at + read]
  {
  }

  /** The file can be read and still has the stamp and at least the length that it was listed with. */
  predicate Stable(source: SourceFile) {
    source.steady && source.readable && source.len <= |source.body|
  }

  /** The file can be read and holds exactly what was packed of it. */
  predicate Comparable(source: SourceFile) {
    source.steady && source.readable && source.body == Packing.ContentOf(source)
  }

  /** Whether the first bytes of a source file are its packaged asset. Comparing fails only on a file that is not as
  it was listed, or through storage. */
  method AssetMatchesSource(package: Package, file: FileRecord, ghost content: Bytes, source: SourceFile)
    returns (r: Result<bool>)
    requires package.Valid() && Tiles(file, package.release, content) && |content| == source.len
    modifies package.Repr()
    ensures package.Valid() && package.faults >= old(package.faults)
    ensures r.Ok? && r.value ==> source.steady && source.len <= |source.body| && source.body[..source.len] == content
    ensures r.Ok? && !r.value ==> !(source.len <= |source.body| && source.body[..source.len] == content)
    ensures r.Err? ==> !Stable(source) || package.faults > old(package.faults)
  {
    hide Tiles, Kept, ReaderSound, Release.Sound, Package.Valid, BothCover, BlockWindow.Holds, BlockWindow.Valid;
    if !source.steady {
      return Err(InvalidInput);
    }
    var cursor := new AssetCursor(package, file, content);
    var position: nat, remaining: nat := 0, source.len;
    while remaining > 0
      invariant cursor.window.Valid() && package.Valid() && package.faults >= old(package.faults)
      invariant position + remaining == source.len == |content| && cursor.position == position <= |source.body|
      invariant source.body[..position] == content[..position]
    {
      var chunk := Min(remaining, COMPARE_BUFFER_BYTES);
      var expected := Packing.ReadChunk(source, position, chunk);
      if expected.Err? || |expected.value| < chunk {
        return Err(Io);
      }
      var actual := ReadPiece(cursor, chunk);
      if actual.Err? || |actual.value| < chunk {
        return Err(Io);
      }
      if expected.value != actual.value {
        PieceDiffers(source.body, content, position, chunk);
        return Ok(false);
      }
      PieceEqual(source.body, content, position, chunk);
      position, remaining := position + chunk, remaining - chunk;
    }
    if !source.steady {
      return Err(InvalidInput);
    }
    assert content[..|content|] == content;
    return Ok(true);
  }

  lemma PieceDiffers(body: Bytes, content: Bytes, position: nat, chunk: nat)
    requires position + chunk <= |body| && position + chunk <= |content|
    requires body[position..position + chunk] != content[position..position + chunk]
    ensures !(|content| <= |body| && body[..|content|] == content)
  {
    if |content| <= |body| {
      assert body[..|content|][position..position + chunk] == body[position..position + chunk];
    }
  }

  lemma PieceEqual(body: Bytes, content: Bytes, position: nat, chunk: nat)
    requires position + chunk <= |body| && position + chunk <= |content| && body[..position] == content[..position]
    requires body[position..position + chunk] == content[position..position + chunk]
    ensures body[..position + chunk] == content[..position + chunk]
  {
    assert body[..position + chunk] == body[..position] + body[position..position + chunk];
    assert content[..position + chunk] == content[..position] + content[position..position + chunk];
  }

  /** The publisher's check of one staged asset. It passes only if the asset is the whole source file; on a
  steady source that can be read it fails only if it is not, or through storage. */
  method VerifyStagedAsset(package: Package, file: FileRecord, ghost content: Bytes, source: SourceFile)
    returns (r: Result<()>)
    requires package.Valid() && Tiles(file, package.release, content)
    modifies package.Repr()
    ensures package.Valid() && package.faults >= old(package.faults)
    ensures r.Ok? ==> source.steady && source.body == content
    ensures r.Err? ==>
              !source.steady || !source.readable || source.body != content || package.faults > old(package.faults)
  {
    hide Tiles, Kept, ReaderSound, Release.Sound, Package.Valid, BothCover, BlockWindow.Holds, BlockWindow.Valid;
    if !source.steady {
      return Err(InvalidInput);
    }
    var cursor := new AssetCursor(package, file, content);
    var position := 0;
    while true
      invariant cursor.window.Valid() && package.Valid() && package.faults >= old(package.faults)
      invariant cursor.position == position <= |content| && position <= |source.body|
      invariant source.body[..position] == content[..position]
      decreases |content| - position
    {
      var expected := Packing.ReadChunk(source, position, COMPARE_BUFFER_BYTES);
      if expected.Err? {
        return Err(Io);
      }
      var actual := ReadPiece(cursor, COMPARE_BUFFER_BYTES);
      if actual.Err? {
        return Err(actual.error);
      }
      if expected.value != actual.value {
        SlicesDiffer(source.body, content, position, COMPARE_BUFFER_BYTES);
        return Err(InvalidInput);
      }
      if |expected.value| == 0 {
        break;
      }
      PieceEqual(source.body, content, position, |expected.value|);
      position := position + |expected.value|;
    }
    assert position == |source.body| == |content|;
    assert source.body[..position] == source.body && content[..position] == content;
    return if source.steady then Ok(()) else Err(InvalidInput);
  }

  lemma SlicesDiffer(body: Bytes, content: Bytes, position: nat, n: nat)
    requires position <= |body| && position <= |content|
    requires body[position..Min(position + n, |body|)] != Slice(content, position, n)
    ensures body != content
  {
  }
}
