/** What a release of given files comes to at most, and when the format has room for it. */
module Limits {
  import opened Basics
  import opened Records
  import opened Catalogs
  import opened Sources
  import opened SegmentStore
  import opened Placement
  import opened Rotation
  import opened Builds
  import opened Packing
  import opened Storage
  import opened Releases
  import opened Assets
  import opened Printing

  /** The segments of a release of these files at most: the new ones, and those of the release before that may be
  used. */
  function SegmentsAtMost(t: Tool, options: Options, earlier: seq<SegmentRecord>, sources: seq<SourceFile>): nat
    requires ToolSound(t)
  {
    |earlier| + SegmentsFor(AllChunks(t, sources), options.targetBytes)
  }

  /** The files are more than a release can be sure to have room for, as their listing and the release before tell. */
  ghost predicate Crowded(t: Tool, options: Options, earlier: seq<SegmentRecord>, sources: seq<SourceFile>)
    requires ToolSound(t)
  {
    var plains, count := AllChunks(t, sources), SegmentsAtMost(t, options, earlier, sources);
    || |sources| > MAX_FILES || |plains| > MAX_BLOCKS || PathBytes(sources) > MAX_PATH_POOL_LEN || count > MAX_SEGMENTS
    || FileTotal(earlier) + SEGMENT_HEADER_SIZE * SegmentsFor(plains, options.targetBytes) + SealedLen(plains)
         >= U64_LIMIT
    || CatalogBytes(count, |sources|, PathBytes(sources), |plains|) > MAX_CATALOG_PLAIN_LEN
  }

  // ------------------------------------------------------------------ counting segments

  lemma {:induction false} FileTotalOfTwo(a: seq<SegmentRecord>, b: seq<SegmentRecord>)
    ensures FileTotal(a + b) == FileTotal(a) + FileTotal(b)
  {
    if b == [] {
      assert a + b == a;
    } else {
      assert (a + b)[..|a + b| - 1] == a + b[..|b| - 1];
      FileTotalOfTwo(a, b[..|b| - 1]);
    }
  }

  lemma FileTotalWithout(segments: seq<SegmentRecord>, k: nat)
    requires k < |segments|
    ensures FileTotal(segments) == FileTotal(segments[..k] + segments[k + 1..]) + segments[k].fileLen
  {
    hide FileTotal;
    FileTotalOfTwo(segments[..k], segments[k + 1..]);
    FileTotalOfTwo(segments[..k + 1], segments[k + 1..]);
    assert segments[..k + 1] + segments[k + 1..] == segments;
    FileTotalNext(segments, k);
  }

  lemma FileTotalNext(segments: seq<SegmentRecord>, k: nat)
    requires k < |segments|
    ensures FileTotal(segments[..k + 1]) == FileTotal(segments[..k]) + segments[k].fileLen
  {
    assert segments[..k + 1][..k] == segments[..k];
  }

  /** A list of different segments is no longer and no larger than any list that has them all. */
  lemma {:induction false} DistinctAreFewer(some: seq<SegmentRecord>, all: seq<SegmentRecord>)
    requires forall i, j :: 0 <= i < j < |some| ==> some[i] != some[j]
    requires forall x :: x in some ==> x in all
    ensures |some| <= |all| && FileTotal(some) <= FileTotal(all)
    decreases |some|
  {
    if some != [] {
      var n := |some| - 1;
      assert some[n] in some;
      var k :| 0 <= k < |all| && all[k] == some[n];
      var others := all[..k] + all[k + 1..];
      forall x | x in some[..n]
        ensures x in others
      {
        var i :| 0 <= i < n && some[i] == x;
        assert some[i] in some;
        var j :| 0 <= j < |all| && all[j] == x;
        assert others[if j < k then j else j - 1] == x;
      }
      DistinctAreFewer(some[..n], others);
      FileTotalWithout(all, k);
    }
  }

  function RecordList(records: seq<Option<SegmentRecord>>): (r: seq<SegmentRecord>)
    requires AllRecorded(records)
    ensures |r| == |records| && forall i :: 0 <= i < |r| ==> Some(r[i]) == records[i]
  {
    seq(|records|, i requires 0 <= i < |records| => records[i].value)
  }

  lemma {:induction false} RecordBytes(t: Tool, projectId: Bytes, data: map<Bytes, Bytes>,
                                       records: seq<Option<SegmentRecord>>, manifests: seq<Manifest>,
                                       kinds: seq<SegmentClass>, tape: seq<Draw>, configured: nat, n: nat)
    requires AllStored(t, projectId, data, records, manifests, kinds, tape, configured) && n <= |records|
    ensures FileTotal(RecordList(records)[..n]) == SEGMENT_HEADER_SIZE * n + StoredAll(manifests[..n])
    decreases n
  {
    hide Holds, SegmentFile, StoredTotal, Bounded, TargetBytes;
    if n > 0 {
      RecordBytes(t, projectId, data, records, manifests, kinds, tape, configured, n - 1);
      assert FinishedOk(t, projectId, data, records[n - 1].value, manifests[n - 1], kinds[n - 1], tape[n - 1],
                        configured);
      assert RecordList(records)[..n][..n - 1] == RecordList(records)[..n - 1];
      assert manifests[..n][..n - 1] == manifests[..n - 1];
    }
  }

  /** The segments that a finished build uses. */
  lemma ListedAtMost(c: BuildContext, segments: seq<SegmentRecord>)
    requires c.Valid() && Listed(segments, c.used, c.records)
    requires AllStored(c.tool, c.projectId, c.data, c.records, c.manifests, c.kinds, c.tape, c.options.targetBytes)
    ensures |segments| <= |c.reuseSegments| + SegmentsFor(c.plains, c.options.targetBytes)
    ensures FileTotal(segments) <= FileTotal(c.reuseSegments)
                                   + SEGMENT_HEADER_SIZE * SegmentsFor(c.plains, c.options.targetBytes)
                                   + SealedLen(c.plains)
  {
    UsedAreEarlier(c);
    NewAreFew(c);
    RecordsFill(c);
    hide *;
    ListedAmong(segments, c.used, c.records, c.reuseSegments);
    HeadersOfMore(|c.records|, SegmentsFor(c.plains, c.options.targetBytes));
  }

  lemma HeadersOfMore(few: nat, many: nat)
    requires few <= many
    ensures SEGMENT_HEADER_SIZE * few <= SEGMENT_HEADER_SIZE * many
  {
  }

  ghost predicate AllAmong(used: map<Bytes, SegmentRecord>, earlier: seq<SegmentRecord>) {
    forall id :: id in used ==> used[id] in earlier
  }

  predicate AllRecorded(records: seq<Option<SegmentRecord>>) {
    forall i :: 0 <= i < |records| ==> records[i].Some?
  }

  lemma RecordsFill(c: BuildContext)
    requires AllStored(c.tool, c.projectId, c.data, c.records, c.manifests, c.kinds, c.tape, c.options.targetBytes)
    ensures |c.records| == |c.manifests| && AllRecorded(c.records)
    ensures FileTotal(RecordList(c.records)) == SEGMENT_HEADER_SIZE * |c.records| + StoredAll(c.manifests)
  {
    hide FinishedOk, FileTotal;
    RecordBytes(c.tool, c.projectId, c.data, c.records, c.manifests, c.kinds, c.tape, c.options.targetBytes,
                |c.records|);
    assert RecordList(c.records)[..|c.records|] == RecordList(c.records);
    assert c.manifests[..|c.records|] == c.manifests;
  }

  lemma ListedAmong(segments: seq<SegmentRecord>, used: map<Bytes, SegmentRecord>, records: seq<Option<SegmentRecord>>,
                    earlier: seq<SegmentRecord>)
    requires Listed(segments, used, records) && AllAmong(used, earlier) && AllRecorded(records)
    ensures |segments| <= |earlier| + |records|
    ensures FileTotal(segments) <= FileTotal(earlier) + FileTotal(RecordList(records))
  {
    ByIdDistinct(segments);
    hide ById, FileTotal;
    var all := earlier + RecordList(records);
    forall x | x in segments
      ensures x in all
    {
      if Some(x) in records {
        var k :| 0 <= k < |records| && records[k] == Some(x);
        assert all[|earlier| + k] == x;
      } else {
        assert x in used.Values;
        assert x in earlier;
      }
    }
    DistinctAreFewer(segments, all);
    FileTotalOfTwo(earlier, RecordList(records));
  }

  lemma UsedAreEarlier(c: BuildContext)
    requires c.Valid()
    ensures AllAmong(c.used, c.reuseSegments)
  {
    hide ToolSound, CurrentOk, SegmentsOk, AllReferenced, NoneEmpty, LibraryOk, ReuseOk, TapeOk, NamesDistinct,
         BlocksOk, Frugal, SealedOnce, NamedByContent, Offered;
  }

  lemma NewAreFew(c: BuildContext)
    requires c.Valid()
    ensures |c.manifests| <= SegmentsFor(c.plains, c.options.targetBytes)
    ensures StoredAll(c.manifests) <= SealedLen(c.plains)
  {
    hide ToolSound, CurrentOk, SegmentsOk, AllReferenced, NoneEmpty, LibraryOk, ReuseOk, TapeOk, NamesDistinct,
         BlocksOk, NamedByContent, UsedOk, Rotated, SegmentsFor;
    SegmentCount(c.manifests, c.active, c.closed, c.options.targetBytes, c.plains);
  }

  /** A snapshot that cannot be made is one of too many files. */
  lemma TooLargeIsCrowded(c: BuildContext, sources: seq<SourceFile>)
    requires ToolSound(c.tool) && Packed(c, sources) && TooLarge(c)
    requires AllStored(c.tool, c.projectId, c.data, c.records, c.manifests, c.kinds, c.tape, c.options.targetBytes)
    ensures Crowded(c.tool, c.options, c.reuseSegments, sources)
  {
    hide ToolSound, BuildContext.Holding, AssetsOk, AllStored, Listed, FileTotal, SegmentsFor, SealedLen, CatalogBytes,
         AllChunks, PathBytes, LinesOf;
    if |c.pending| < U32_LIMIT {
      var segments :| Listed(segments, c.used, c.records)
                      && (|segments| > U16_LIMIT || FileTotal(segments) >= U64_LIMIT);
      ListedAtMost(c, segments);
    }
  }

  lemma CatalogGrows(few: nat, many: nat, files: nat, pool: nat, blocks: nat)
    requires few <= many
    ensures CatalogBytes(few, files, pool, blocks) <= CatalogBytes(many, files, pool, blocks)
  {
  }

  /** Unless the files are too many the format has room for their snapshot, the widths of names and digests apart. */
  lemma RoomForSnapshot(c: BuildContext, sequence: nat, s: Snapshot, sources: seq<SourceFile>, p: Press)
    requires ToolSound(c.tool) && Packed(c, sources) && Written(c, sequence, s)
    requires AllStored(c.tool, c.projectId, c.data, c.records, c.manifests, c.kinds, c.tape, c.options.targetBytes)
    requires !Crowded(c.tool, c.options, c.reuseSegments, sources)
    ensures FitsFormat(p, c.options.level, s) <==> WidthsFit(p, c.options.level, s)
  {
    WrittenCounts(c, sequence, s, sources);
    PackedChunks(c, sources);
    NotCrowded(c.tool, c.options, c.reuseSegments, sources);
    hide *;
    ListedAtMost(c, s.segments);
    CatalogGrows(|s.segments|, SegmentsAtMost(c.tool, c.options, c.reuseSegments, sources), |sources|,
                 PathBytes(sources), |c.plains|);
    FitsWithin(p, c.options.level, s, SegmentsAtMost(c.tool, c.options, c.reuseSegments, sources));
  }

  lemma PackedChunks(c: BuildContext, sources: seq<SourceFile>)
    requires ToolSound(c.tool) && Packed(c, sources)
    ensures c.Valid() && c.plains == AllChunks(c.tool, sources)
    ensures SegmentsAtMost(c.tool, c.options, c.reuseSegments, sources)
         == |c.reuseSegments| + SegmentsFor(c.plains, c.options.targetBytes)
  {
    hide ToolSound, BuildContext.Holding, AssetsOk, LinesOf, AllChunks, PathBytes, SegmentsFor;
  }

  lemma NotCrowded(t: Tool, options: Options, earlier: seq<SegmentRecord>, sources: seq<SourceFile>)
    requires ToolSound(t) && !Crowded(t, options, earlier, sources)
    ensures var count := SegmentsAtMost(t, options, earlier, sources);
            && |sources| <= MAX_FILES && |AllChunks(t, sources)| <= MAX_BLOCKS
            && PathBytes(sources) <= MAX_PATH_POOL_LEN && count <= MAX_SEGMENTS
            && CatalogBytes(count, |sources|, PathBytes(sources), |AllChunks(t, sources)|) <= MAX_CATALOG_PLAIN_LEN
  {
    hide ToolSound, AllChunks, PathBytes, SegmentsAtMost, CatalogBytes, FileTotal, SealedLen, SegmentsFor;
  }

  lemma FitsWithin(p: Press, level: int, s: Snapshot, count: nat)
    requires |s.segments| <= count <= MAX_SEGMENTS && |s.files| <= MAX_FILES && |s.blocks| <= MAX_BLOCKS
    requires |s.pathPool| <= MAX_PATH_POOL_LEN
    requires CatalogBytes(|s.segments|, |s.files|, |s.pathPool|, |s.blocks|) <= MAX_CATALOG_PLAIN_LEN
    ensures FitsFormat(p, level, s) <==> WidthsFit(p, level, s)
  {
    hide WidthsFit, CatalogBytes;
  }

  lemma WrittenCounts(c: BuildContext, sequence: nat, s: Snapshot, sources: seq<SourceFile>)
    requires ToolSound(c.tool) && Packed(c, sources) && Written(c, sequence, s)
    ensures Listed(s.segments, c.used, c.records) && |s.files| == |sources| && |s.blocks| == |c.plains|
    ensures |s.pathPool| == PathBytes(sources)
  {
    hide ToolSound, BuildContext.Holding, Listed, SnapshotOk, Merged, LinesOf, SnapshotLines, AllChunks, PathBytes,
         AssetAt, Assigned;
  }
}
