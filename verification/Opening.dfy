/** Opening a printed snapshot: parsing its catalog, finding assets by path, reading and verifying them. */
module Opening {
  import opened Basics
  import opened Records
  import opened Catalogs
  import opened CatalogRoundTrip
  import opened Pages
  import opened BlockStore
  import opened AssetReader
  import opened Sessions
  import opened Sources
  import opened SegmentStore
  import opened Placement
  import opened Builds
  import opened Packing
  import opened Releases
  import opened Assets
  import opened ReadBack
  import opened Printing
  import opened Comparing
  import PathIndex
  import Storage
  import Tables

  const MEMORY_CONSTRAINED: Budget := Budget(512 * 1024, 16 * 1024 * 1024, 512 * 1024, 4, 64)

  /** Opens the package over the data directory. */
  method OpenPackage(t: Tool, projectId: Bytes, data: map<Bytes, Bytes>, ghost library: map<Bytes, Manifest>,
                     s: Snapshot, p: Press, e: Printed, budget: Budget) returns (package: Package)
    requires ToolSound(t) && SnapshotOk(t, projectId, data, library, s) && PressSound(p) && PrintedOk(p, s, e)
    requires budget.pageBytes < USIZE_MAX && budget.blockBytes < USIZE_MAX && budget.prefetchBytes < USIZE_MAX
    ensures fresh(package) && fresh(package.Repr()) && package.Valid() && package.faults == 0
    ensures package.release == ReleaseOf(t, projectId, data, library, s, p.pages, e.pages)
  {
    hide ToolSound, SnapshotOk, Paginated, BlocksAccepted, Release.Sound, Package.Valid, Indexed, Printable, DataValid,
         Lawful, DigestsDistinct, Catalogs.Encoded, PathIndex.PoolHolds, PagesUnforged, Tables.Uniform;
    DistinctAreUnforged(p.pages, e.pages);
    PublishedIsSound(t, projectId, data, library, s, p.pages, e.pages);
    package := new Package(ReleaseOf(t, projectId, data, library, s, p.pages, e.pages), budget);
  }

  lemma DistinctAreUnforged(c: PageCrypto, e: EncryptedPages)
    requires DigestsDistinct(c)
    ensures PagesUnforged(c, e)
  {
  }

  /** Parses the printed catalog and looks a path up in it. */
  method FindAsset(p: Press, s: Snapshot, e: Printed, path: Bytes)
    returns (r: Result<Option<FileRecord>>, ghost index: nat)
    requires PrintedOk(p, s, e)
    ensures !p.canonical(path) ==> r == Err(InvalidPath)
    ensures p.canonical(path) ==> r.Ok? && |s.paths| == |s.files|
    ensures p.canonical(path) && r.value.None? ==> path !in s.paths
    ensures p.canonical(path) && r.value.Some? ==>
              index < |s.paths| && s.paths[index] == path && r.value.value == s.files[index]
  {
    hide Paginated, BlocksAccepted, PathIndex.SlotsFit, PathIndex.Placed, Printable, DataValid, PathIndex.PoolHolds,
         Image, Tables.Uniform, Parsed, AllReadable, CatalogRoundTrip.Decoded, Typed;
    index := 0;
    ghost var d := CatalogOf(s, e.slots, e.pages);
    CatalogReopens(p, d, e.catalog);
    var view := Parse(e.catalog, USIZE_MAX, p.canonical);
    if view.None? {
      return Err(InvalidFormat), index;
    }
    ghost var probes :| PathIndex.Placed(e.slots, s.paths, p.pathHash, |s.paths|, probes);
    var found := PathIndex.FindFile(view.value, d, path, p.pathHash, p.canonical, s.paths, probes);
    if found.Err? {
      return Err(found.error), index;
    }
    if found.value.None? {
      return Ok(None), index;
    }
    index := found.value.value;
    RecordReopens(p, d, index);
    var file := view.value.File(found.value.value);
    if file.None? {
      return Err(InvalidFormat), index;
    }
    return Ok(Some(file.value)), index;
  }

  /** A printed catalog parses back to a view of its data. */
  lemma CatalogReopens(p: Press, d: CatalogData, catalog: Bytes)
    requires Printable(d) && Addressable(d, USIZE_MAX) && Catalogs.Encoded(d) == Some(catalog)
    requires DataValid(d, p.canonical)
    ensures Parsed(catalog, USIZE_MAX, p.canonical) == Some(ViewOf(d, USIZE_MAX))
  {
    hide Image, DataValid, Parsed, Typed;
    ParseOfImage(d, USIZE_MAX, p.canonical);
  }

  lemma RecordReopens(p: Press, d: CatalogData, i: nat)
    requires Printable(d) && Addressable(d, USIZE_MAX) && DataValid(d, p.canonical) && i < |d.files|
    ensures ViewOf(d, USIZE_MAX).File(i) == Some(d.files[i])
  {
    hide Image, Typed, PowerOfTwo;
    ReadsFile(d, USIZE_MAX, i);
    assert DataFileValid(d, d.files[i], p.canonical);
  }

  // ------------------------------------------------------------- verification and reading

  /** Storage gives every segment as it was written. */
  ghost predicate AsWritten(segments: seq<SegmentRecord>, data: map<Bytes, Bytes>, found: map<Bytes, Bytes>) {
    forall i :: 0 <= i < |segments| ==>
      segments[i].id in data && segments[i].id in found && found[segments[i].id] == data[segments[i].id]
  }

  /** The publisher's check of a staged release, where storage gives the segment files as `found`: every segment must
  have the content that names it, and unless the sources are trusted every asset is read back by its path and compared
  with its source. */
  method VerifyStaged(t: Tool, projectId: Bytes, data: map<Bytes, Bytes>, ghost library: map<Bytes, Manifest>,
                      s: Snapshot, p: Press, e: Printed, found: map<Bytes, Bytes>, sources: seq<SourceFile>,
                      ghost options: Options, verifySources: bool) returns (r: Result<()>, ghost faults: nat)
    requires Given(t, options, projectId, data, library, s, sources, p) && PrintedOk(p, s, e) && PathsDistinct(sources)
    ensures r.Ok? ==> AsWritten(s.segments, data, found)
    ensures r.Ok? && verifySources ==> forall i :: 0 <= i < |sources| ==>
              sources[i].steady && sources[i].body == ContentOf(sources[i])
    ensures r.Err? ==> faults > 0 || (verifySources && exists i :: 0 <= i < |sources| && !Comparable(sources[i]))
  {
    hide ToolSound, SnapshotOk, AssetsOk, PrintedOk, Package.Valid, PressSound, SnapshotLines, Tiles, AsWritten;
    faults := 0;
    SegmentsIntact(t, projectId, data, library, s);
    PathsListed(t, options, projectId, data, library, s, sources, []);
    var package := OpenPackage(t, projectId, data, library, s, p, e, MEMORY_CONSTRAINED);
    var intact := VerifySegments(t, s.segments, data, found);
    if !intact {
      faults := 1;
      return Err(Authentication), faults;
    }
    if !verifySources {
      return Ok(()), faults;
    }
    for i := 0 to |sources|
      invariant package.Valid() && fresh(package.Repr())
      invariant package.release == ReleaseOf(t, projectId, data, library, s, p.pages, e.pages)
      invariant forall k :: 0 <= k < i ==> sources[k].steady && sources[k].body == ContentOf(sources[k])
    {
      assert s.paths[i] == sources[i].path;
      var asset, index := FindAsset(p, s, e, sources[i].path);
      if asset.Err? || asset.value.None? {
        return Err(InvalidInput), faults;
      }
      SamePath(t, options, projectId, data, library, s, sources, i, index);
      PublishedTiles(t, options, projectId, data, library, s, sources, p.pages, e.pages, i);
      var verified := VerifyStagedAsset(package, asset.value.value, ContentOf(sources[i]), sources[i]);
      faults := package.faults;
      if verified.Err? {
        return verified, faults;
      }
    }
    return Ok(()), faults;
  }

  /** Every segment file has the content that names it: exactly if storage gives it as it was written. */
  method VerifySegments(t: Tool, segments: seq<SegmentRecord>, ghost data: map<Bytes, Bytes>, found: map<Bytes, Bytes>)
    returns (intact: bool)
    requires ToolSound(t)
    requires forall i :: 0 <= i < |segments| ==>
               segments[i].id in data && t.hash(data[segments[i].id]) == segments[i].id
    ensures intact <==> AsWritten(segments, data, found)
  {
    hide ToolSound;
    for i := 0 to |segments|
      invariant AsWritten(segments[..i], data, found)
    {
      var id := segments[i].id;
      assert id in data;
      if id !in found || t.hash(found[id]) != id {
        return false;
      }
      SameHash(t, found[id], data[id]);
    }
    assert segments[..|segments|] == segments;
    return true;
  }

  /** The segments of a published release have their content. */
  lemma SegmentsIntact(t: Tool, projectId: Bytes, data: map<Bytes, Bytes>, library: map<Bytes, Manifest>, s: Snapshot)
    requires SnapshotOk(t, projectId, data, library, s)
    ensures forall i :: 0 <= i < |s.segments| ==>
              s.segments[i].id in data && t.hash(data[s.segments[i].id]) == s.segments[i].id
  {
    hide ById, SegmentNeeded, BlockAt, Holds, SegmentFile, Storage.FileTotal;
    forall i | 0 <= i < |s.segments|
      ensures s.segments[i].id in data && t.hash(data[s.segments[i].id]) == s.segments[i].id
    {
      assert Stored(t, projectId, data, s.segments[i], library[s.segments[i].id]);
    }
  }

  lemma SamePath(t: Tool, options: Options, projectId: Bytes, data: map<Bytes, Bytes>, library: map<Bytes, Manifest>,
                 s: Snapshot, sources: seq<SourceFile>, i: nat, j: nat)
    requires ToolSound(t) && SnapshotOk(t, projectId, data, library, s) && PathsDistinct(sources)
    requires AssetsOk(t, options, s.files, s.paths, s.pathPool, sources, SnapshotLines(s, library))
    requires i < |sources| && j < |s.paths| && s.paths[j] == sources[i].path
    ensures i == j
  {
    hide ToolSound, SnapshotOk, SnapshotLines, ChunksOf, OffsetOf, RecordOf;
    assert AssetAt(t, options, s.files, s.paths, s.pathPool, sources[j], SnapshotLines(s, library), j);
  }

  /** Whatever is asked of a published release: its catalog is parsed, the path is looked up in it, and any history of
  reads, seeks, prefetches and trims on the asset found answers as slicing the source's content would. Exactly the
  paths of the sources are found. */
  method ReadPublished(t: Tool, projectId: Bytes, data: map<Bytes, Bytes>, ghost library: map<Bytes, Manifest>,
                       s: Snapshot, p: Press, e: Printed, budget: Budget, path: Bytes, ops: seq<Op>,
                       ghost options: Options, ghost sources: seq<SourceFile>)
    returns (r: Result<Option<seq<Outcome>>>, ghost i: nat, ghost faults: nat)
    requires Given(t, options, projectId, data, library, s, sources, p) && PrintedOk(p, s, e) && PathsDistinct(sources)
    requires budget.pageBytes < USIZE_MAX && budget.blockBytes < USIZE_MAX && budget.prefetchBytes < USIZE_MAX
    ensures r.Err? <==> !p.canonical(path)
    ensures r.Ok? ==> (r.value.Some? <==> exists k :: 0 <= k < |sources| && sources[k].path == path)
    ensures r.Ok? && r.value.Some? ==>
              && i < |sources| && sources[i].path == path && Follows(ContentOf(sources[i]), 0, ops, r.value.value)
              && (faults == 0 ==> Failed !in r.value.value)
  {
    hide ToolSound, SnapshotOk, AssetsOk, PrintedOk, Package.Valid, PressSound, SnapshotLines, Tiles, Follows,
         BlockWindow.Valid;
    faults := 0;
    var found, index := FindAsset(p, s, e, path);
    i := index;
    PathsListed(t, options, projectId, data, library, s, sources, path);
    if found.Err? {
      return Err(found.error), i, faults;
    }
    if found.value.None? {
      return Ok(None), i, faults;
    }
    var package := OpenPackage(t, projectId, data, library, s, p, e, budget);
    PublishedTiles(t, options, projectId, data, library, s, sources, p.pages, e.pages, i);
    var session := new BlockWindow(package, found.value.value, ContentOf(sources[i]));
    var cursor := new AssetCursor(package, found.value.value, ContentOf(sources[i]));
    var outcomes := RunHistory(session, cursor, ops);
    faults := package.faults;
    return Ok(Some(outcomes)), i, faults;
  }

  lemma PathsListed(t: Tool, options: Options, projectId: Bytes, data: map<Bytes, Bytes>, library: map<Bytes, Manifest>,
                    s: Snapshot, sources: seq<SourceFile>, path: Bytes)
    requires ToolSound(t) && SnapshotOk(t, projectId, data, library, s)
    requires AssetsOk(t, options, s.files, s.paths, s.pathPool, sources, SnapshotLines(s, library))
    ensures |s.files| == |s.paths| == |sources| && forall k :: 0 <= k < |sources| ==> s.paths[k] == sources[k].path
    ensures path in s.paths <==> exists k :: 0 <= k < |sources| && sources[k].path == path
  {
    hide ToolSound, SnapshotOk, SnapshotLines, ChunksOf, OffsetOf, RecordOf;
    forall k | 0 <= k < |sources|
      ensures s.paths[k] == sources[k].path
    {
      assert AssetAt(t, options, s.files, s.paths, s.pathPool, sources[k], SnapshotLines(s, library), k);
    }
  }
}
