/** Source files as the publisher sees them: how they are classified, cut into chunks and cached. */
module Sources {
  import opened Basics
  import opened Wire
  import opened Records
  import opened Tables
  import opened BlockStore
  import opened Arithmetic

  /** What the file system says about a source file; equal stamps are taken to mean an unchanged file. */
  datatype Stamp = Stamp(len: nat, modified: Option<(nat, nat)>, device: nat, inode: nat)

  datatype Compression = Auto | NeverCompress {
    predicate Accepts(codec: Codec) {
      Auto? || codec.Raw?
    }
  }

  datatype SourceClass = SourceClass(layout: Layout, fixedBlockLen: nat, access: Access, compression: Compression)

  /** `body` is what reading the file delivers; `steady` says that the open file still has the stamp taken
  when the directory was listed, `readable` that opening and reading it fails nowhere. */
  datatype SourceFile = SourceFile(path: Bytes, len: nat, stamp: Stamp, body: Bytes, steady: bool, readable: bool)

  /** No two files have one path. */
  ghost predicate PathsDistinct(sources: seq<SourceFile>) {
    forall i, j :: 0 <= i < j < |sources| ==> sources[i].path != sources[j].path
  }

  datatype CachedChunk = CachedChunk(logicalOffset: nat, plainLen: nat, chunkId: Bytes)

  datatype CachedEntry = CachedEntry(stamp: Stamp, layout: Layout, fixedBlockLen: nat, access: Access,
                                     availability: Availability, compression: Compression, chunks: seq<CachedChunk>)

  datatype SegmentClass = SegmentClass(availability: Availability, access: Access)

  const HOT_SEGMENT_TARGET: nat := 64 * 1024 * 1024
  const NORMAL_SEGMENT_TARGET: nat := 256 * 1024 * 1024
  const TRANSIENT_SEGMENT_TARGET: nat := 128 * 1024 * 1024
  const FASTCDC_MAX: nat := 512 * 1024

  /** The payload bytes after which a segment of a class is full. */
  function TargetBytes(kind: SegmentClass, configured: nat): nat {
    var classTarget := match kind.access
      case Hot => HOT_SEGMENT_TARGET
      case Normal => NORMAL_SEGMENT_TARGET
      case Streaming => configured
      case Transient => TRANSIENT_SEGMENT_TARGET;
    if configured < classTarget then configured else classTarget
  }

  /** So many payload bytes are within what the configuration and the kind of access allow a segment. */
  predicate WithinClass(access: Access, len: nat, configured: nat) {
    && len <= configured && (access.Hot? ==> len <= 64 * 1024 * 1024) && (access.Normal? ==> len <= 256 * 1024 * 1024)
    && (access.Transient? ==> len <= 128 * 1024 * 1024)
  }

  lemma TargetExactlyWhen(kind: SegmentClass, len: nat, configured: nat)
    ensures len <= TargetBytes(kind, configured) <==> WithinClass(kind.access, len, configured)
  {
  }

  const SLASH: Byte := 47

  const MIN_SEGMENT_TARGET: nat := 1024 * 1024
  const MIN_LEVEL: int := -7
  const MAX_LEVEL: int := 22

  datatype Options = Options(incremental: bool, floor: nat, developmentCache: bool, targetBytes: nat, level: int,
                             deferred: seq<Bytes>) {
    /** What `validate_options` checks of the values. */
    predicate Accepted(canonical: Bytes -> bool) {
      && floor > 0 && targetBytes >= MIN_SEGMENT_TARGET && MIN_LEVEL <= level <= MAX_LEVEL
      && forall i :: 0 <= i < |deferred| ==> canonical(deferred[i])
    }

    /** A path is deferred when a prefix names it or one of its directories. */
    predicate IsDeferred(path: Bytes) {
      exists i :: 0 <= i < |deferred| && PrefixNames(deferred[i], path)
    }

    function AvailabilityOf(path: Bytes): Availability {
      if IsDeferred(path) then Deferred else Required
    }
  }

  predicate PrefixNames(prefix: Bytes, path: Bytes) {
    prefix <= path && (|path| == |prefix| || path[|prefix|] == SLASH)
  }

  /** What deferring means: a path is deferred exactly when it is a listed prefix or lies below one, after a slash. */
  lemma DeferredExactlyWhen(options: Options, path: Bytes)
    ensures options.AvailabilityOf(path) == Deferred
            <==> exists p :: p in options.deferred && (path == p || exists rest: Bytes :: path == p + [47] + rest)
  {
    hide PrefixNames;
    if options.IsDeferred(path) {
      var i :| 0 <= i < |options.deferred| && PrefixNames(options.deferred[i], path);
      NamedBelow(options.deferred[i], path);
      assert options.deferred[i] in options.deferred;
    } else {
      forall p | p in options.deferred
        ensures path != p && forall rest: Bytes :: path != p + [47] + rest
      {
        var i :| 0 <= i < |options.deferred| && options.deferred[i] == p;
        NamedBelow(p, path);
        assert forall rest: Bytes :: path != p + [47] + rest;
      }
    }
  }

  lemma NamedBelow(p: Bytes, path: Bytes)
    ensures PrefixNames(p, path) <==> path == p || exists rest: Bytes :: path == p + [47] + rest
  {
    if PrefixNames(p, path) && path != p {
      assert path == p + [47] + path[|p| + 1..];
    }
    if rest :| path == p + [47] + rest {
      assert path[|p|] == 47 && path[..|p|] == p;
    }
  }

  /** A sibling whose name merely begins with a deferred name is not deferred by it. */
  lemma SiblingIsRequired(options: Options, prefix: Bytes, suffix: Bytes)
    requires suffix != [] && suffix[0] != 47
    requires forall p :: p in options.deferred && p != prefix ==>
              prefix + suffix != p && forall rest: Bytes :: prefix + suffix != p + [47] + rest
    ensures options.AvailabilityOf(prefix + suffix) == Required
  {
    var path := prefix + suffix;
    DeferredExactlyWhen(options, path);
    assert path[|prefix|] == suffix[0];
    assert forall rest: Bytes :: (prefix + [47] + rest)[|prefix|] == 47;
  }

  /** The parts of the publisher that are not modelled: digests, sealing, compression, content-defined
  cutting and classification by file name. `hash` names chunks and segments. */
  datatype Tool = Tool(hash: Bytes -> Bytes, seal: (BlockAad, Bytes) -> Bytes, crypto: BlockCrypto,
                       compress: (int, Bytes) -> Bytes, cut: Bytes -> seq<nat>, classify: (Bytes, nat) -> SourceClass)

  ghost predicate CutsAll(lens: seq<nat>, total: nat) {
    && (forall i :: 0 <= i < |lens| ==> 0 < lens[i] <= FASTCDC_MAX)
    && SumOf(lens) == total
  }

  function SumOf(lens: seq<nat>): nat {
    if lens == [] then 0 else lens[0] + SumOf(lens[1..])
  }

  predicate ClassOk(c: SourceClass) {
    && c.fixedBlockLen <= MAX_BLOCK_PLAIN_LEN
    && (c.layout == Fixed ==> c.fixedBlockLen > 0) && (c.layout == ContentDefined ==> c.fixedBlockLen == 0)
  }

  /** The hypotheses on what is not modelled: names do not collide, opening undoes sealing, inflating
  undoes compressing, and cutting is a tiling by non-empty chunks. */
  ghost predicate ToolSound(t: Tool) {
    && (forall a, b :: t.hash(a) == t.hash(b) ==> a == b)
    && (forall a, b :: t.crypto.digest(a) == t.crypto.digest(b) ==> a == b)
    && (forall aad, e :: |t.seal(aad, e)| == |e| + TAG_SIZE && t.crypto.open(aad, t.seal(aad, e)) == Some(e))
    && (forall level, p :: t.crypto.inflate(t.compress(level, p)) == Some(p))
    && (forall p :: CutsAll(t.cut(p), |p|))
    && (forall path, len :: ClassOk(t.classify(path, len)))
  }

  function EvenCuts(n: nat): seq<nat> {
    if n == 0 then [] else if n <= FASTCDC_MAX then [n] else [FASTCDC_MAX] + EvenCuts(n - FASTCDC_MAX)
  }

  lemma {:induction false} EvenCutsAll(n: nat)
    ensures CutsAll(EvenCuts(n), n)
  {
    if n > FASTCDC_MAX {
      EvenCutsAll(n - FASTCDC_MAX);
      assert EvenCuts(n)[1..] == EvenCuts(n - FASTCDC_MAX);
    } else if n > 0 {
      assert [n][1..] == [];
    }
  }

  function PlaceOf(listed: seq<Bytes>, x: Bytes): (i: nat)
    ensures x in listed ==> i < |listed| && listed[i] == x
  {
    if listed == [] || listed[0] == x then 0 else 1 + PlaceOf(listed[1..], x)
  }

  /** A naming without collisions under which exactly the listed inputs have names of the given width. */
  function NameFor(listed: seq<Bytes>, width: nat, x: Bytes): Bytes {
    if x in listed then seq(width, _ => PlaceOf(listed, x) % 256) else seq(width + 1, _ => 0) + x
  }

  lemma NamesDiffer(listed: seq<Bytes>, width: nat, x: Bytes, y: Bytes)
    requires 0 < |listed| <= 256 && width > 0 && NameFor(listed, width, x) == NameFor(listed, width, y)
    ensures x == y
  {
    var a, b := NameFor(listed, width, x), NameFor(listed, width, y);
    if x in listed {
      assert |a| == width;
      assert a[0] == PlaceOf(listed, x) && b[0] == PlaceOf(listed, y);
    } else {
      assert a[width + 1..] == x && b[width + 1..] == y;
    }
  }

  lemma NameWidth(listed: seq<Bytes>, width: nat, x: Bytes)
    requires x in listed
    ensures |NameFor(listed, width, x)| == width
  {
  }

  /** A tool that meets the hypotheses, with names and digests of the right widths for the listed inputs. */
  function ToolFor(named: seq<Bytes>, digested: seq<Bytes>): Tool {
    Tool((x: Bytes) => NameFor(named, 32, x), (a: BlockAad, e: Bytes) => e + Zeros(TAG_SIZE),
         BlockCrypto((a: BlockAad, b: Bytes) => if |b| >= TAG_SIZE then Some(b[..|b| - TAG_SIZE]) else None,
                     (x: Bytes) => Some(x), (x: Bytes) => NameFor(digested, 16, x)),
         (level: int, x: Bytes) => x, (x: Bytes) => EvenCuts(|x|),
         (path: Bytes, len: nat) => SourceClass(ContentDefined, 0, Normal, Auto))
  }

  /** The hypotheses can be met, whatever few inputs are to have names and digests that fit the format. */
  lemma ToolSoundPossible(named: seq<Bytes>, digested: seq<Bytes>)
    requires 0 < |named| <= 256 && 0 < |digested| <= 256
    ensures ToolSound(ToolFor(named, digested))
    ensures forall x :: x in named ==> |ToolFor(named, digested).hash(x)| == 32
    ensures forall x :: x in digested ==> |ToolFor(named, digested).crypto.digest(x)| == 16
  {
    hide NameFor, EvenCuts, CutsAll;
    var t := ToolFor(named, digested);
    forall x | x in named
      ensures |t.hash(x)| == 32
    {
      NameWidth(named, 32, x);
    }
    forall x | x in digested
      ensures |t.crypto.digest(x)| == 16
    {
      NameWidth(digested, 16, x);
    }
    forall a, b | t.hash(a) == t.hash(b)
      ensures a == b
    {
      NamesDiffer(named, 32, a, b);
    }
    forall a, b | t.crypto.digest(a) == t.crypto.digest(b)
      ensures a == b
    {
      NamesDiffer(digested, 16, a, b);
    }
    forall p: Bytes
      ensures CutsAll(t.cut(p), |p|)
    {
      EvenCutsAll(|p|);
    }
  }

  function Classify(t: Tool, source: SourceFile): SourceClass {
    t.classify(source.path, source.len)
  }

  // -------------------------------------------------------------------- chunks

  function FixedChunks(body: Bytes, size: nat): seq<Bytes>
    requires size > 0
  {
    if body == [] then []
    else if |body| <= size then [body]
    else [body[..size]] + FixedChunks(body[size..], size)
  }

  function CutChunks(body: Bytes, lens: seq<nat>): seq<Bytes>
    requires SumOf(lens) == |body|
    decreases lens
  {
    if lens == [] then [] else [body[..lens[0]]] + CutChunks(body[lens[0]..], lens[1..])
  }

  /** The chunks of a file, in order. */
  function Chunks(t: Tool, kind: SourceClass, body: Bytes): seq<Bytes>
    requires kind.layout == Fixed ==> kind.fixedBlockLen > 0
    requires kind.layout == ContentDefined ==> SumOf(t.cut(body)) == |body|
  {
    if kind.layout == Fixed then FixedChunks(body, kind.fixedBlockLen) else CutChunks(body, t.cut(body))
  }

  /** The logical offset of chunk `j`. */
  function OffsetOf(chunks: seq<Bytes>, j: nat): nat
    requires j <= |chunks|
  {
    |Join(chunks[..j])|
  }

  ghost predicate ChunksTile(kind: SourceClass, chunks: seq<Bytes>, body: Bytes) {
    && Join(chunks) == body
    && (forall j :: 0 <= j < |chunks| ==> 0 < |chunks[j]| <= MAX_BLOCK_PLAIN_LEN)
    && (kind.layout == Fixed ==> ChunksFixed(chunks, kind.fixedBlockLen))
  }

  /** All chunks but the last have the full size. */
  ghost predicate ChunksFixed(chunks: seq<Bytes>, size: nat) {
    forall j :: 0 <= j < |chunks| ==> |chunks[j]| <= size && (j + 1 < |chunks| ==> |chunks[j]| == size)
  }

  lemma {:induction false} FixedChunksTile(body: Bytes, size: nat)
    requires 0 < size <= MAX_BLOCK_PLAIN_LEN
    ensures var c := FixedChunks(body, size);
            && Join(c) == body && ChunksFixed(c, size) && (forall j :: 0 <= j < |c| ==> |c[j]| > 0)
  {
    if body != [] && |body| > size {
      FixedChunksTile(body[size..], size);
      var rest := FixedChunks(body[size..], size);
      assert FixedChunks(body, size)[1..] == rest;
      forall j | 0 <= j < |rest| + 1
        ensures var c := FixedChunks(body, size)[j]; 0 < |c| <= size && (j + 1 < |rest| + 1 ==> |c| == size)
      {
        if j > 0 {
          assert FixedChunks(body, size)[j] == rest[j - 1];
        }
      }
    } else if body != [] {
      assert FixedChunks(body, size)[1..] == [];
    }
  }

  lemma {:induction false} CutChunksTile(body: Bytes, lens: seq<nat>)
    requires CutsAll(lens, |body|)
    ensures var c := CutChunks(body, lens);
            && Join(c) == body && (forall j :: 0 <= j < |c| ==> 0 < |c[j]| <= MAX_BLOCK_PLAIN_LEN)
    decreases lens
  {
    if lens != [] {
      CutChunksTile(body[lens[0]..], lens[1..]);
      assert CutChunks(body, lens)[1..] == CutChunks(body[lens[0]..], lens[1..]);
    }
  }

  /** Cutting a file loses nothing and yields no empty chunk. */
  lemma ChunkingTiles(t: Tool, kind: SourceClass, body: Bytes)
    requires ToolSound(t) && ClassOk(kind)
    ensures ChunksTile(kind, Chunks(t, kind, body), body)
  {
    assert CutsAll(t.cut(body), |body|);
    if kind.layout == Fixed {
      FixedChunksTile(body, kind.fixedBlockLen);
    } else {
      CutChunksTile(body, t.cut(body));
    }
  }

  lemma {:induction false} JoinPrefix(parts: seq<Bytes>, j: nat)
    requires j <= |parts|
    ensures |Join(parts[..j])| <= |Join(parts)|
    ensures Join(parts)[..|Join(parts[..j])|] == Join(parts[..j])
    ensures j < |parts| ==>
              && |Join(parts[..j + 1])| == |Join(parts[..j])| + |parts[j]| <= |Join(parts)|
              && Join(parts)[|Join(parts[..j])|..|Join(parts[..j])| + |parts[j]|] == parts[j]
    decreases |parts| - j
  {
    if j < |parts| {
      JoinAppend(parts[..j], parts[j]);
      assert parts[..j] + [parts[j]] == parts[..j + 1];
      JoinPrefix(parts, j + 1);
    } else {
      assert parts[..j] == parts;
    }
  }

  /** Where a chunk belongs: its bytes are the file's from its offset on, and the next one starts where it ends. */
  lemma ChunkPlace(chunks: seq<Bytes>, j: nat)
    requires j < |chunks|
    ensures var o := OffsetOf(chunks, j);
            && o + |chunks[j]| <= |Join(chunks)| && Join(chunks)[o..o + |chunks[j]|] == chunks[j]
            && OffsetOf(chunks, j + 1) == o + |chunks[j]|
    ensures OffsetOf(chunks, 0) == 0 && OffsetOf(chunks, |chunks|) == |Join(chunks)|
  {
    JoinPrefix(chunks, j);
    assert chunks[..|chunks|] == chunks && chunks[..0] == [];
  }

  /** A fixed layout puts chunk `j` at `j` block lengths. */
  lemma {:induction false} FixedOffset(chunks: seq<Bytes>, size: nat, j: nat)
    requires ChunksFixed(chunks, size) && j < |chunks|
    ensures OffsetOf(chunks, j) == j * size
  {
    if j == 0 {
      assert chunks[..0] == [];
    } else {
      FixedOffset(chunks, size, j - 1);
      ChunkPlace(chunks, j - 1);
      assert j * size == (j - 1) * size + size;
    }
  }

  // ------------------------------------------------------------ the development cache

  /** The cached chunks that a file really has. */
  function ChunkList(t: Tool, chunks: seq<Bytes>): (r: seq<CachedChunk>)
    ensures |r| == |chunks|
  {
    seq(|chunks|, j requires 0 <= j < |chunks| => CachedChunk(OffsetOf(chunks, j), |chunks[j]|, t.hash(chunks[j])))
  }

  /** A cached entry that matches the file's stamp and class lists the file's real chunks. */
  ghost predicate EntryTrue(t: Tool, source: SourceFile, e: CachedEntry)
    requires ToolSound(t)
  {
    var c := Classify(t, source);
    assert CutsAll(t.cut(source.body), |source.body|);
    e.stamp == source.stamp && e.layout == c.layout && e.fixedBlockLen == c.fixedBlockLen ==>
      e.chunks == ChunkList(t, Chunks(t, c, source.body))
  }
}
