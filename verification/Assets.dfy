/** What it means for a release to contain its sources, and what the source fingerprint determines. */
module Assets {
  import opened Basics
  import opened Records
  import opened Tables
  import opened BlockStore
  import opened Sources
  import opened SegmentStore
  import opened Placement
  import opened Rotation
  import opened Builds
  import opened Packing
  import opened Releases

  function BlockStart(files: seq<FileRecord>, i: nat): nat
    requires i <= |files|
  {
    if i == 0 then 0 else files[i - 1].firstBlock + files[i - 1].blockCount
  }

  /** Asset `i` is the source's content: its blocks follow those of the asset before, hold its chunks in order
  at their offsets, and lie in segments of the availability that the options give its path. */
  ghost predicate AssetAt(t: Tool, options: Options, files: seq<FileRecord>, paths: seq<Bytes>, pool: Bytes,
                          source: SourceFile, lines: seq<Line>, i: nat)
    requires ToolSound(t) && i < |files| == |paths|
  {
    var r, chunks := files[i], ChunksOf(t, source);
    && |ContentOf(source)| == source.len < U64_LIMIT && paths[i] == source.path
    && |source.path| < U16_LIMIT && r.pathOffset < U32_LIMIT
    && r == RecordOf(t, source, r.pathOffset, r.firstBlock)
    && r.firstBlock == BlockStart(files, i) && r.firstBlock + |chunks| <= |lines|
    && r.pathOffset + |source.path| <= |pool| && pool[r.pathOffset..r.pathOffset + |source.path|] == source.path
    && (forall j :: 0 <= j < |chunks| ==>
          lines[r.firstBlock + j] == Line(OffsetOf(chunks, j), options.AvailabilityOf(source.path), chunks[j]))
  }

  ghost predicate AssetsOk(t: Tool, options: Options, files: seq<FileRecord>, paths: seq<Bytes>, pool: Bytes,
                           sources: seq<SourceFile>, lines: seq<Line>)
    requires ToolSound(t)
  {
    && |files| == |paths| == |sources| && BlockStart(files, |files|) == |lines|
    && (forall i :: 0 <= i < |sources| ==> AssetAt(t, options, files, paths, pool, sources[i], lines, i))
  }

  ghost function Fingerprint(t: Tool, options: Options, sources: seq<SourceFile>): (r: seq<FileItem>)
    requires ToolSound(t)
    ensures |r| == |sources|
  {
    seq(|sources|, i requires 0 <= i < |sources| => ItemOf(t, options, sources[i]))
  }

  /** An asset stays as it is when more files follow. */
  lemma AssetStays(t: Tool, options: Options, files: seq<FileRecord>, paths: seq<Bytes>, pool: Bytes,
                   source: SourceFile, lines: seq<Line>, i: nat, files': seq<FileRecord>, paths': seq<Bytes>,
                   pool': Bytes, lines': seq<Line>)
    requires ToolSound(t) && i < |files| == |paths| && AssetAt(t, options, files, paths, pool, source, lines, i)
    requires files <= files' && paths <= paths' && pool <= pool' && lines <= lines' && |files'| == |paths'|
    ensures AssetAt(t, options, files', paths', pool', source, lines', i)
  {
    hide ChunksOf, OffsetOf, RecordOf, ToolSound;
    assert pool'[..|pool|] == pool;
  }

  /** One more file: its blocks are the new lines. */
  lemma AssetAdded(t: Tool, options: Options, files: seq<FileRecord>, paths: seq<Bytes>, pool: Bytes,
                   sources: seq<SourceFile>, lines: seq<Line>, source: SourceFile, record: FileRecord,
                   lines': seq<Line>)
    requires ToolSound(t) && AssetsOk(t, options, files, paths, pool, sources, lines)
    requires |ContentOf(source)| == source.len < U64_LIMIT && record == RecordOf(t, source, |pool|, |lines|)
    requires |source.path| < U16_LIMIT && |pool| < U32_LIMIT
    requires var chunks := ChunksOf(t, source);
             && lines <= lines' && |lines'| == |lines| + |chunks|
             && forall j :: 0 <= j < |chunks| ==>
                  lines'[|lines| + j] == Line(OffsetOf(chunks, j), options.AvailabilityOf(source.path), chunks[j])
    ensures AssetsOk(t, options, files + [record], paths + [source.path], pool + source.path, sources + [source],
                     lines')
  {
    hide AssetAt, ChunksOf, OffsetOf, RecordOf, ToolSound;
    var n := |files|;
    var files', paths', pool' := files + [record], paths + [source.path], pool + source.path;
    forall i | 0 <= i < n + 1
      ensures AssetAt(t, options, files', paths', pool', (sources + [source])[i], lines', i)
    {
      if i < n {
        AssetStays(t, options, files, paths, pool, sources[i], lines, i, files', paths', pool', lines');
      } else {
        LastAsset(t, options, files', paths', pool', source, lines', |pool|, |lines|);
      }
    }
    LastRecord(t, files', source, |pool|, |lines|);
  }

  lemma LastRecord(t: Tool, files: seq<FileRecord>, source: SourceFile, pathOffset: nat, first: nat)
    requires ToolSound(t) && files != [] && files[|files| - 1] == RecordOf(t, source, pathOffset, first)
    ensures BlockStart(files, |files|) == first + |ChunksOf(t, source)|
  {
    hide ChunksOf, ToolSound;
  }

  lemma LastAsset(t: Tool, options: Options, files: seq<FileRecord>, paths: seq<Bytes>, pool: Bytes, source: SourceFile,
                  lines: seq<Line>, pathOffset: nat, first: nat)
    requires ToolSound(t) && |files| == |paths| > 0 && files[|files| - 1] == RecordOf(t, source, pathOffset, first)
    requires |ContentOf(source)| == source.len < U64_LIMIT && paths[|paths| - 1] == source.path
    requires pathOffset + |source.path| == |pool| && pool[pathOffset..] == source.path
    requires |source.path| < U16_LIMIT && pathOffset < U32_LIMIT
    requires first == BlockStart(files, |files| - 1) && first + |ChunksOf(t, source)| == |lines|
    requires var chunks := ChunksOf(t, source);
             forall j :: 0 <= j < |chunks| ==>
                 lines[first + j] == Line(OffsetOf(chunks, j), options.AvailabilityOf(source.path), chunks[j])
    ensures AssetAt(t, options, files, paths, pool, source, lines, |files| - 1)
  {
    hide ChunksOf, OffsetOf, ToolSound;
  }

  // -------------------------------------------------------------------- the fingerprint

  lemma SameNames(t: Tool, a: seq<Bytes>, b: seq<Bytes>)
    requires ToolSound(t) && Names(t, a) == Names(t, b)
    ensures a == b
  {
    hide ToolSound;
    assert |Names(t, a)| == |a| && |Names(t, b)| == |b|;
    forall i | 0 <= i < |a|
      ensures a[i] == b[i]
    {
      assert Names(t, a)[i] == Names(t, b)[i];
      SameHash(t, a[i], b[i]);
    }
  }

  /** Equal fingerprints: the same paths with the same content, chunked and placed alike. */
  lemma SameItem(t: Tool, o: Options, a: SourceFile, p: Options, b: SourceFile)
    requires ToolSound(t) && ItemOf(t, o, a) == ItemOf(t, p, b)
    ensures a.path == b.path && a.len == b.len && ChunksOf(t, a) == ChunksOf(t, b) && ContentOf(a) == ContentOf(b)
    ensures o.AvailabilityOf(a.path) == p.AvailabilityOf(b.path)
  {
    hide ToolSound, ChunksOf, Names;
    SameNames(t, ChunksOf(t, a), ChunksOf(t, b));
    ChunksOfTile(t, a);
    ChunksOfTile(t, b);
  }

  /** A release whose fingerprint is that of other sources contains those as well. */
  lemma SameFingerprint(t: Tool, o: Options, files: seq<FileRecord>, paths: seq<Bytes>, pool: Bytes, a: seq<SourceFile>,
                        lines: seq<Line>, p: Options, b: seq<SourceFile>)
    requires ToolSound(t) && AssetsOk(t, o, files, paths, pool, a, lines)
    requires Fingerprint(t, o, a) == Fingerprint(t, p, b)
    ensures AssetsOk(t, p, files, paths, pool, b, lines)
    ensures |a| == |b| && forall i :: 0 <= i < |a| ==> a[i].path == b[i].path && ContentOf(a[i]) == ContentOf(b[i])
  {
    hide ToolSound, ChunksOf, ItemOf, OffsetOf;
    assert |Fingerprint(t, o, a)| == |a| && |Fingerprint(t, p, b)| == |b|;
    forall i | 0 <= i < |a|
      ensures AssetAt(t, p, files, paths, pool, b[i], lines, i) && a[i].path == b[i].path
      ensures ContentOf(a[i]) == ContentOf(b[i])
    {
      assert AssetAt(t, o, files, paths, pool, a[i], lines, i);
      assert Fingerprint(t, o, a)[i] == Fingerprint(t, p, b)[i];
      SameItem(t, o, a[i], p, b[i]);
    }
  }

  // ------------------------------------------------------------------ packing all files

  /** The chunks of all files, in order. */
  function AllChunks(t: Tool, sources: seq<SourceFile>): seq<Bytes>
    requires ToolSound(t)
  {
    if sources == [] then [] else AllChunks(t, sources[..|sources| - 1]) + ChunksOf(t, sources[|sources| - 1])
  }

  /** The bytes of all paths. */
  function PathBytes(sources: seq<SourceFile>): nat {
    if sources == [] then 0 else PathBytes(sources[..|sources| - 1]) + |sources[|sources| - 1].path|
  }

  /** Why files cannot be packed, as their listing and the draws at hand tell: one of them is no longer as it was listed
  and is not `spared` being opened, or has too long a path, or together they are too much. */
  ghost predicate Unpackable(t: Tool, options: Options, spared: set<SourceFile>, draws: nat, sources: seq<SourceFile>)
    requires ToolSound(t)
  {
    || (exists i :: 0 <= i < |sources| && !FilePackable(sources[i], spared))
    || PathBytes(sources) >= U32_LIMIT || Overloaded(draws, options.targetBytes, AllChunks(t, sources))
  }

  ghost predicate FilePackable(source: SourceFile, spared: set<SourceFile>) {
    (Packable(source) || source in spared) && |source.path| < U16_LIMIT
  }

  lemma SparedMore(t: Tool, options: Options, few: set<SourceFile>, many: set<SourceFile>, draws: nat,
                   sources: seq<SourceFile>)
    requires ToolSound(t) && few <= many && Unpackable(t, options, many, draws, sources)
    ensures Unpackable(t, options, few, draws, sources)
  {
    hide ToolSound, Overloaded, AllChunks, PathBytes, Packable;
  }

  lemma {:induction false} FirstsAreFewer(t: Tool, draws: nat, configured: nat, sources: seq<SourceFile>, k: nat)
    requires ToolSound(t) && k <= |sources|
    ensures PathBytes(sources[..k]) <= PathBytes(sources)
    ensures Overloaded(draws, configured, AllChunks(t, sources[..k])) ==>
              Overloaded(draws, configured, AllChunks(t, sources))
    decreases |sources| - k
  {
    hide ToolSound, ChunksOf, Overloaded;
    if k < |sources| {
      assert sources[..k + 1][..k] == sources[..k];
      if Overloaded(draws, configured, AllChunks(t, sources[..k])) {
        OverloadedMore(draws, configured, AllChunks(t, sources[..k]), ChunksOf(t, sources[k]));
      }
      FirstsAreFewer(t, draws, configured, sources, k + 1);
    } else {
      assert sources[..k] == sources;
    }
  }

  /** Where one file cannot be added, all of them cannot. */
  lemma OneUnpackable(t: Tool, options: Options, spared: set<SourceFile>, draws: nat, sources: seq<SourceFile>, i: nat)
    requires ToolSound(t) && i < |sources|
    requires !FilePackable(sources[i], spared) || PathBytes(sources[..i]) >= U32_LIMIT
             || Overloaded(draws, options.targetBytes, AllChunks(t, sources[..i]) + ChunksOf(t, sources[i]))
    ensures Unpackable(t, options, spared, draws, sources)
  {
    hide ToolSound, ChunksOf, Overloaded;
    FirstsAreFewer(t, draws, options.targetBytes, sources, i);
    FirstsAreFewer(t, draws, options.targetBytes, sources, i + 1);
    assert sources[..i + 1][..i] == sources[..i];
  }

  /** Looking up the chunks of a file. */
  function LookupFor(t: Tool, options: Options, index: ReuseIndex, segments: seq<SegmentRecord>,
                     source: SourceFile): Lookup {
    Lookup(index, segments, ClassOf(t, options, source), Classify(t, source).compression)
  }

  /** The chunks of the files for which the previous release offers no block, each once for a class and a policy. */
  function MissingIn(t: Tool, options: Options, index: ReuseIndex, segments: seq<SegmentRecord>,
                     sources: seq<SourceFile>): set<ChunkKey>
    requires ToolSound(t)
  {
    if sources == [] then {}
    else
      var last := sources[|sources| - 1];
      MissingIn(t, options, index, segments, sources[..|sources| - 1])
      + MissingKeys(LookupFor(t, options, index, segments, last), ChunkList(t, ChunksOf(t, last)))
  }

  /** What a build holds after adding the first files. Blocks were sealed only for chunks that the previous release
  lacks. */
  ghost predicate Packed(c: BuildContext, sources: seq<SourceFile>)
    reads c
  {
    && c.Valid() && |c.pending| == |c.plains| && c.fingerprint == Fingerprint(c.tool, c.options, sources)
    && AssetsOk(c.tool, c.options, c.fileRecords, c.filePaths, c.pathPool, sources,
                LinesOf(c.pending, c.plains, c.Here()))
    && c.plains == AllChunks(c.tool, sources) && |c.pathPool| == PathBytes(sources)
    && c.sealedFor <= MissingIn(c.tool, c.options, c.reuseIndex, c.reuseSegments, sources)
  }

  lemma OneMoreFile(t: Tool, options: Options, index: ReuseIndex, segments: seq<SegmentRecord>,
                    sources: seq<SourceFile>, source: SourceFile)
    requires ToolSound(t)
    ensures AllChunks(t, sources + [source]) == AllChunks(t, sources) + ChunksOf(t, source)
    ensures PathBytes(sources + [source]) == PathBytes(sources) + |source.path|
    ensures MissingIn(t, options, index, segments, sources + [source])
         == MissingIn(t, options, index, segments, sources)
            + MissingKeys(LookupFor(t, options, index, segments, source), ChunkList(t, ChunksOf(t, source)))
  {
    hide ToolSound, ChunksOf, MissingKeys;
    assert (sources + [source])[..|sources|] == sources;
  }

  /** Lines are not disturbed by what is added later. */
  lemma LinesGrow(a: seq<PendingBlock>, p: seq<Bytes>, w: World, b: seq<PendingBlock>, q: seq<Bytes>, v: World)
    requires |a| == |p| && |b| == |q| && a <= b && p <= q && Grows(w, v)
    requires forall n :: 0 <= n < |a| ==> Placed(a[n], w)
    ensures LinesOf(a, p, w) <= LinesOf(b, q, v)
  {
    hide Grows, Home;
    forall n | 0 <= n < |a|
      ensures LinesOf(a, p, w)[n] == LinesOf(b, q, v)[n]
    {
      GivesStays(a[n], PlainOf(a[n], w), Home(a[n], w), w, v);
      GivesHome(a[n], PlainOf(a[n], w), Home(a[n], w), v);
    }
  }

  lemma NewLines(before: seq<PendingBlock>, plains: seq<Bytes>, after: seq<PendingBlock>, chunks: seq<Bytes>,
                 availability: Availability, w: World)
    requires Added(before, after, chunks, availability, w) && |plains| == |before|
    ensures |after| == |plains + chunks|
    ensures forall j :: 0 <= j < |chunks| ==>
              LinesOf(after, plains + chunks, w)[|before| + j] == Line(OffsetOf(chunks, j), availability, chunks[j])
  {
    hide OffsetOf, Home;
    forall j | 0 <= j < |chunks|
      ensures LinesOf(after, plains + chunks, w)[|before| + j] == Line(OffsetOf(chunks, j), availability, chunks[j])
    {
      assert AddedAt(after, |before|, chunks, j, availability, w);
    }
  }
}
