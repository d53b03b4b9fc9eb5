/** The release planner: an exact comparison of the sources with the release, and its metadata-only form. */
module Planner {
  import opened Basics
  import opened Records
  import opened BlockStore
  import opened AssetReader
  import opened Sources
  import opened SegmentStore
  import opened Placement
  import opened Builds
  import opened Packing
  import opened Releases
  import opened Assets
  import opened ReadBack
  import opened Pages
  import opened Ordering
  import opened Comparing
  import Opening

  datatype AssetChange = Added | Modified | Unchanged | Removed

  datatype PlannedAsset = PlannedAsset(path: Bytes, sourceLen: Option<nat>, releasedLen: Option<nat>, access: Access,
                                       availability: Availability, change: AssetChange)

  datatype ReleasePlan = ReleasePlan(previousRelease: Option<nat>, assets: seq<PlannedAsset>, sourceBytes: nat,
                                     changedSourceBytes: nat)

  /** What a release says of one asset, with its plaintext. */
  datatype Known = Known(len: nat, access: Access, content: Bytes)

  /** The assets of an open release by path. */
  type Catalog = map<Bytes, FileRecord>

  /** The metadata agrees with the contents, and the contents can be read. */
  ghost predicate Describes(released: Catalog, known: map<Bytes, Known>) {
    released.Keys == known.Keys
    && forall path :: path in known ==>
         released[path].logicalLen == known[path].len == |known[path].content|
         && released[path].access == known[path].access
  }

  ghost predicate ReadableAssets(package: Package, released: Catalog, known: map<Bytes, Known>) {
    && released.Keys == known.Keys
    && forall path :: path in known ==> Tiles(released[path], package.release, known[path].content)
  }

  function Find(sources: seq<SourceFile>, path: Bytes): (r: Option<SourceFile>)
    ensures r.Some? ==> r.value in sources && r.value.path == path
    ensures r.None? ==> forall s :: s in sources ==> s.path != path
  {
    if sources == [] then None else if sources[0].path == path then Some(sources[0]) else Find(sources[1..], path)
  }

  function Get(known: map<Bytes, Known>, path: Bytes): Option<Known> {
    if path in known then Some(known[path]) else None
  }

  /** The source file begins with the released content and has its length. */
  predicate Same(source: SourceFile, content: Bytes) {
    |content| == source.len <= |source.body| && source.body[..source.len] == content
  }

  function ChangeOf(source: SourceFile, released: Option<Known>): AssetChange {
    if released.None? then Added else if Same(source, released.value.content) then Unchanged else Modified
  }

  /** What the plan has to say of a path. */
  function Planned(t: Tool, options: Options, path: Bytes, source: Option<SourceFile>,
                   released: Option<Known>): PlannedAsset
    requires source.Some? || released.Some?
  {
    var releasedLen := if released.Some? then Some(released.value.len) else None;
    if source.Some? then
      PlannedAsset(path, Some(source.value.len), releasedLen, Classify(t, source.value).access,
                   options.AvailabilityOf(path), ChangeOf(source.value, released))
    else PlannedAsset(path, None, releasedLen, released.value.access, options.AvailabilityOf(path), Removed)
  }

  function PathsOf(assets: seq<PlannedAsset>): (r: seq<Bytes>)
    ensures |r| == |assets| && forall i :: 0 <= i < |r| ==> r[i] == assets[i].path
  {
    seq(|assets|, i requires 0 <= i < |assets| => assets[i].path)
  }

  /** Every asset of the list is what the plan has to say of its path. */
  ghost predicate EachRight(t: Tool, options: Options, sources: seq<SourceFile>, known: map<Bytes, Known>,
                            assets: seq<PlannedAsset>) {
    forall a :: a in assets ==> Right(t, options, sources, known, a)
  }

  ghost predicate Right(t: Tool, options: Options, sources: seq<SourceFile>, known: map<Bytes, Known>,
                        a: PlannedAsset) {
    var source, released := Find(sources, a.path), Get(known, a.path);
    (source.Some? || released.Some?) && a == Planned(t, options, a.path, source, released)
  }

  ghost predicate HasPath(assets: seq<PlannedAsset>, path: Bytes) {
    exists a :: a in assets && a.path == path
  }

  function ChangedBytes(sources: seq<SourceFile>, known: map<Bytes, Known>): nat {
    if sources == [] then 0
    else
      var last := sources[|sources| - 1];
      ChangedBytes(sources[..|sources| - 1], known)
      + if ChangeOf(last, Get(known, last.path)) == Unchanged then 0 else last.len
  }

  function TotalBytes(sources: seq<SourceFile>): nat {
    if sources == [] then 0 else TotalBytes(sources[..|sources| - 1]) + sources[|sources| - 1].len
  }

  /** The plan lists each path of the sources and of the release once, in order, with exactly what there is to
  say of it, and its sums are exact. */
  ghost predicate Exact(t: Tool, options: Options, sources: seq<SourceFile>, known: map<Bytes, Known>,
                        plan: ReleasePlan) {
    && Ascending(PathsOf(plan.assets)) && EachRight(t, options, sources, known, plan.assets)
    && (forall s :: s in sources ==> HasPath(plan.assets, s.path))
    && (forall path :: path in known ==> HasPath(plan.assets, path))
    && plan.sourceBytes == TotalBytes(sources) && plan.changedSourceBytes == ChangedBytes(sources, known)
  }

  /** There is only one exact plan. */
  lemma ExactIsUnique(t: Tool, options: Options, sources: seq<SourceFile>, known: map<Bytes, Known>, a: ReleasePlan,
                      b: ReleasePlan)
    requires Exact(t, options, sources, known, a) && Exact(t, options, sources, known, b)
    ensures a.assets == b.assets && a.sourceBytes == b.sourceBytes && a.changedSourceBytes == b.changedSourceBytes
  {
    hide Ascending, Planned, Find;
    forall path
      ensures path in PathsOf(a.assets) <==> path in PathsOf(b.assets)
    {
      SamePaths(t, options, sources, known, a, b, path);
      SamePaths(t, options, sources, known, b, a, path);
    }
    AscendingUnique(PathsOf(a.assets), PathsOf(b.assets));
    forall i | 0 <= i < |a.assets|
      ensures a.assets[i] == b.assets[i]
    {
      assert PathsOf(a.assets)[i] == PathsOf(b.assets)[i];
      assert Right(t, options, sources, known, a.assets[i]) && Right(t, options, sources, known, b.assets[i]);
    }
  }

  lemma SamePaths(t: Tool, options: Options, sources: seq<SourceFile>, known: map<Bytes, Known>, a: ReleasePlan,
                  b: ReleasePlan, path: Bytes)
    requires Exact(t, options, sources, known, a) && Exact(t, options, sources, known, b)
    ensures path in PathsOf(a.assets) ==> path in PathsOf(b.assets)
  {
    hide Ascending, Planned;
    if path in PathsOf(a.assets) {
      var i :| 0 <= i < |a.assets| && PathsOf(a.assets)[i] == path;
      assert Right(t, options, sources, known, a.assets[i]);
      assert HasPath(b.assets, path);
      var x :| x in b.assets && x.path == path;
      var j :| 0 <= j < |b.assets| && b.assets[j] == x;
      assert PathsOf(b.assets)[j] == path;
    }
  }

  // ------------------------------------------------------------------------ the code

  /** The library sort by path, one insertion at a time. */
  method InsertByPath(sorted: seq<PlannedAsset>, a: PlannedAsset) returns (r: seq<PlannedAsset>)
    requires Ascending(PathsOf(sorted)) && !HasPath(sorted, a.path)
    ensures Ascending(PathsOf(r)) && forall x :: x in r <==> x in sorted || x == a
  {
    hide Less, Ascending, HasPath;
    NoSuchPath(sorted, a.path);
    var p := 0;
    while p < |sorted| && Less(sorted[p].path, a.path)
      invariant p <= |sorted| && forall i :: 0 <= i < p ==> Less(sorted[i].path, a.path)
    {
      p := p + 1;
    }
    r := sorted[..p] + [a] + sorted[p..];
    Inserted(PathsOf(sorted), a.path, p);
    PathsInserted(sorted, a, p);
  }

  lemma PathsInserted(sorted: seq<PlannedAsset>, a: PlannedAsset, p: nat)
    requires p <= |sorted|
    ensures var r := sorted[..p] + [a] + sorted[p..];
            && PathsOf(r) == PathsOf(sorted)[..p] + [a.path] + PathsOf(sorted)[p..]
            && forall x :: x in r <==> x in sorted || x == a
  {
    assert sorted == sorted[..p] + sorted[p..];
  }

  lemma NoSuchPath(assets: seq<PlannedAsset>, path: Bytes)
    requires !HasPath(assets, path)
    ensures path !in PathsOf(assets)
  {
    assert forall i :: 0 <= i < |assets| ==> assets[i] in assets;
  }

  lemma Inserted(names: seq<Bytes>, name: Bytes, p: nat)
    requires Ascending(names) && name !in names && p <= |names|
    requires (forall i :: 0 <= i < p ==> Less(names[i], name)) && (p < |names| ==> !Less(names[p], name))
    ensures Ascending(names[..p] + [name] + names[p..])
  {
    hide Less;
    forall i | p <= i < |names|
      ensures Less(name, names[i])
    {
      assert names[p] in names;
      LessTotal(name, names[p]);
      if i > p {
        LessTransitive(name, names[p], names[i]);
      }
    }
  }

  method SortByPath(assets: seq<PlannedAsset>) returns (sorted: seq<PlannedAsset>)
    requires forall i, j :: 0 <= i < j < |assets| ==> assets[i].path != assets[j].path
    ensures Ascending(PathsOf(sorted)) && forall x :: x in sorted <==> x in assets
  {
    hide Ascending;
    sorted := [];
    NothingAscends();
    for i := 0 to |assets|
      invariant Ascending(PathsOf(sorted)) && forall x :: x in sorted <==> x in assets[..i]
    {
      sorted := InsertByPath(sorted, assets[i]);
      assert assets[..i + 1] == assets[..i] + [assets[i]];
    }
    assert assets[..|assets|] == assets;
  }

  lemma NothingAscends()
    ensures Ascending(PathsOf([]))
  {
  }

  method SumSources(sources: seq<SourceFile>) returns (r: Result<nat>)
    ensures r == if TotalBytes(sources) < U64_LIMIT then Ok(TotalBytes(sources)) else Err(InvalidInput)
  {
    var total: nat := 0;
    for i := 0 to |sources|
      invariant total == TotalBytes(sources[..i]) < U64_LIMIT
    {
      TotalGrows(sources, i + 1);
      assert sources[..i + 1][..i] == sources[..i];
      if total + sources[i].len >= U64_LIMIT {
        return Err(InvalidInput);
      }
      total := total + sources[i].len;
    }
    assert sources[..|sources|] == sources;
    return Ok(total);
  }

  lemma {:induction false} TotalGrows(sources: seq<SourceFile>, k: nat)
    requires k <= |sources|
    ensures TotalBytes(sources[..k]) <= TotalBytes(sources)
    decreases |sources|
  {
    if k < |sources| {
      TotalGrows(sources[..|sources| - 1], k);
      assert sources[..|sources| - 1][..k] == sources[..k];
    } else {
      assert sources[..k] == sources;
    }
  }

  lemma {:induction false} FindsItself(sources: seq<SourceFile>, i: nat)
    requires PathsDistinct(sources) && i < |sources|
    ensures Find(sources, sources[i].path) == Some(sources[i])
  {
    if i > 0 {
      FindsItself(sources[1..], i - 1);
    }
  }

  /** What the plan needs of an open release, if there is one. */
  ghost predicate Readable(package: Package?, released: Catalog, known: map<Bytes, Known>)
    reads if package == null then {} else package.Repr()
  {
    && Describes(released, known)
    && if package == null then known == map[] else package.Valid() && ReadableAssets(package, released, known)
  }

  /** One source against the asset of its path, if the release has one. */
  method PlanOne(t: Tool, options: Options, package: Package?, source: SourceFile, previous: Option<FileRecord>,
                 ghost released: Catalog, ghost known: map<Bytes, Known>)
    returns (r: Result<PlannedAsset>)
    requires Readable(package, released, known)
    requires previous == if source.path in released then Some(released[source.path]) else None
    modifies if package == null then {} else package.Repr()
    ensures Readable(package, released, known) && (package != null ==> package.faults >= old(package.faults))
    ensures r.Ok? ==> r.value == Planned(t, options, source.path, Some(source), Get(known, source.path))
    ensures r.Err? ==> package != null && (!Stable(source) || package.faults > old(package.faults))
  {
    hide Tiles, Package.Valid;
    var change := if previous.Some? then Modified else Added;
    if package != null && previous.Some? && previous.value.logicalLen == source.len {
      var matches := AssetMatchesSource(package, previous.value, known[source.path].content, source);
      if matches.Err? {
        return Err(matches.error);
      }
      if matches.value {
        change := Unchanged;
      }
    }
    return Ok(PlannedAsset(source.path, Some(source.len),
                           if previous.Some? then Some(previous.value.logicalLen) else None, Classify(t, source).access,
                           options.AvailabilityOf(source.path), change));
  }

  /** The full plan: compares every source with its asset by content. Without incremental mode, and before the first
  release, it is compared with nothing and fails only on a listing beyond 64 bits. Else it fails only there, through
  storage, or on a source that is no longer as it was listed. */
  method PlanDirectory(t: Tool, options: Options, sources: seq<SourceFile>, release: Option<Package>, sequence: nat,
                       listed: Catalog, ghost known: map<Bytes, Known>)
    returns (r: Result<ReleasePlan>)
    requires PathsDistinct(sources)
    requires release.Some? ==> Readable(release.value, listed, known)
    modifies if release.None? then {} else release.value.Repr()
    ensures release.Some? ==> release.value.Valid() && release.value.faults >= old(release.value.faults)
    ensures r.Err? ==>
              || TotalBytes(sources) >= U64_LIMIT
              || (options.incremental && release.Some?
                  && (!AllStable(sources) || release.value.faults > old(release.value.faults)))
    ensures r.Ok? ==>
              && TotalBytes(sources) < U64_LIMIT
              && if options.incremental && release.Some? then
                Exact(t, options, sources, known, r.value) && r.value.previousRelease == Some(sequence)
              else
                Exact(t, options, sources, map[], r.value) && r.value.previousRelease == None
  {
    hide Tiles, Package.Valid, Exact, ReadableAssets, Describes;
    if options.incremental && release.Some? {
      r := PlanAgainst(t, options, sources, release.value, Some(sequence), listed, known);
    } else {
      NothingDescribed();
      r := PlanAgainst(t, options, sources, null, None, map[], map[]);
    }
  }

  lemma NothingDescribed()
    ensures Describes(map[], map[])
  {
  }

  method PlanAgainst(t: Tool, options: Options, sources: seq<SourceFile>, package: Package?,
                     previousRelease: Option<nat>, released: Catalog, ghost known: map<Bytes, Known>)
    returns (r: Result<ReleasePlan>)
    requires PathsDistinct(sources) && Readable(package, released, known)
    modifies if package == null then {} else package.Repr()
    ensures Readable(package, released, known) && (package != null ==> package.faults >= old(package.faults))
    ensures r.Err? ==>
              || TotalBytes(sources) >= U64_LIMIT
              || (package != null && (!AllStable(sources) || package.faults > old(package.faults)))
    ensures r.Ok? ==> TotalBytes(sources) < U64_LIMIT
    ensures r.Ok? ==> Exact(t, options, sources, known, r.value) && r.value.previousRelease == previousRelease
  {
    hide Tiles, Package.Valid, Same, Right, Planned, HasPath, Ascending, Find, ChangedBytes, ChangeOf, EachRight,
         Remaining, ReadableAssets, TotalBytes;
    NothingPlanned(t, options, sources, released, known);
    var sourceBytes := SumSources(sources);
    if sourceBytes.Err? {
      return Err(sourceBytes.error);
    }
    var left := released;
    var assets: seq<PlannedAsset> := [];
    var changed: nat := 0;
    for i := 0 to |sources|
      invariant Readable(package, released, known) && (package != null ==> package.faults >= old(package.faults))
      invariant |assets| == i && changed == ChangedBytes(sources[..i], known)
      invariant forall k :: 0 <= k < i ==> assets[k].path == sources[k].path
      invariant EachRight(t, options, sources, known, assets)
      invariant Remaining(released, left, sources, i)
    {
      var source := sources[i];
      StillThere(released, left, sources, i);
      var previous := if source.path in left then Some(left[source.path]) else None;
      var asset := PlanOne(t, options, package, source, previous, released, known);
      if asset.Err? {
        return Err(asset.error);
      }
      SourceRight(t, options, sources, known, i);
      ChangedNext(sources, known, i);
      ChangedWithin(sources, known, i + 1);
      if asset.value.change != Unchanged {
        if changed + source.len >= U64_LIMIT {
          return Err(InvalidInput);
        }
        changed := changed + source.len;
      }
      RightAppend(t, options, sources, known, assets, asset.value);
      assets := assets + [asset.value];
      OneLess(released, left, sources, i);
      left := left - {source.path};
    }
    assert sources[..|sources|] == sources;
    assets := AddRemoved(t, options, sources, released, known, assets, left);
    var sorted := SortByPath(assets);
    SortedHas(assets, sorted);
    SortedRight(t, options, sources, known, assets, sorted);
    return Ok(ReleasePlan(previousRelease, sorted, sourceBytes.value, changed));
  }

  ghost predicate AllStable(sources: seq<SourceFile>) {
    forall i :: 0 <= i < |sources| ==> Stable(sources[i])
  }

  lemma {:induction false} ChangedWithin(sources: seq<SourceFile>, known: map<Bytes, Known>, k: nat)
    requires k <= |sources|
    ensures ChangedBytes(sources[..k], known) <= TotalBytes(sources[..k]) <= TotalBytes(sources)
  {
    hide ChangeOf;
    TotalGrows(sources, k);
    if k > 0 {
      ChangedWithin(sources, known, k - 1);
      assert sources[..k][..k - 1] == sources[..k - 1];
    }
  }

  /** Compared with nothing, every source is an addition and every byte is new. */
  lemma FreshPlanAddsAll(t: Tool, options: Options, sources: seq<SourceFile>, plan: ReleasePlan)
    requires Exact(t, options, sources, map[], plan)
    ensures plan.changedSourceBytes == plan.sourceBytes && forall a :: a in plan.assets ==> a.change == Added
  {
    hide Ascending, Find, HasPath, ChangedBytes, TotalBytes;
    AllBytesChanged(sources);
    forall a | a in plan.assets
      ensures a.change == Added
    {
      assert Right(t, options, sources, map[], a);
    }
  }

  lemma {:induction false} AllBytesChanged(sources: seq<SourceFile>)
    ensures ChangedBytes(sources, map[]) == TotalBytes(sources)
  {
    if sources != [] {
      AllBytesChanged(sources[..|sources| - 1]);
    }
  }

  /** The part of the release whose paths are not among the first sources. */
  ghost predicate Remaining(released: Catalog, left: Catalog, sources: seq<SourceFile>, i: nat)
    requires i <= |sources|
  {
    && (forall path :: path in left <==> path in released && Find(sources[..i], path).None?)
    && (forall path :: path in left ==> left[path] == released[path])
  }

  lemma NothingPlanned(t: Tool, options: Options, sources: seq<SourceFile>, released: Catalog, known: map<Bytes, Known>)
    ensures EachRight(t, options, sources, known, []) && Remaining(released, released, sources, 0)
    ensures ChangedBytes(sources[..0], known) == 0
  {
  }

  lemma ChangedNext(sources: seq<SourceFile>, known: map<Bytes, Known>, i: nat)
    requires i < |sources|
    ensures ChangedBytes(sources[..i + 1], known)
         == ChangedBytes(sources[..i], known)
            + if ChangeOf(sources[i], Get(known, sources[i].path)) == Unchanged then 0 else sources[i].len
  {
    hide ChangeOf;
    assert sources[..i + 1][..i] == sources[..i];
  }

  lemma RightAppend(t: Tool, options: Options, sources: seq<SourceFile>, known: map<Bytes, Known>,
                    assets: seq<PlannedAsset>, a: PlannedAsset)
    requires EachRight(t, options, sources, known, assets) && Right(t, options, sources, known, a)
    ensures EachRight(t, options, sources, known, assets + [a])
  {
    hide Right;
  }

  lemma SortedRight(t: Tool, options: Options, sources: seq<SourceFile>, known: map<Bytes, Known>,
                    assets: seq<PlannedAsset>, sorted: seq<PlannedAsset>)
    requires EachRight(t, options, sources, known, assets) && forall x :: x in sorted <==> x in assets
    ensures EachRight(t, options, sources, known, sorted)
  {
    hide Right;
  }

  lemma StillThere(released: Catalog, left: Catalog, sources: seq<SourceFile>, i: nat)
    requires i < |sources| && PathsDistinct(sources) && Remaining(released, left, sources, i)
    ensures sources[i].path in left <==> sources[i].path in released
    ensures sources[i].path in left ==> left[sources[i].path] == released[sources[i].path]
  {
    assert forall s :: s in sources[..i] ==> s.path != sources[i].path;
  }

  lemma OneLess(released: Catalog, left: Catalog, sources: seq<SourceFile>, i: nat)
    requires i < |sources| && Remaining(released, left, sources, i)
    ensures Remaining(released, left - {sources[i].path}, sources, i + 1)
  {
    hide Find;
    forall path
      ensures Find(sources[..i + 1], path).None? <==> Find(sources[..i], path).None? && path != sources[i].path
    {
      FindOneMore(sources, i, path);
    }
  }

  lemma FindOneMore(sources: seq<SourceFile>, i: nat, path: Bytes)
    requires i < |sources|
    ensures Find(sources[..i + 1], path).None? <==> Find(sources[..i], path).None? && path != sources[i].path
  {
    hide Find;
    var longer, shorter := Find(sources[..i + 1], path), Find(sources[..i], path);
    assert sources[..i + 1] == sources[..i] + [sources[i]];
    assert sources[i] in sources[..i + 1];
    assert shorter.Some? ==> shorter.value in sources[..i + 1];
    assert longer.Some? ==> longer.value in sources[..i] || longer.value == sources[i];
  }

  lemma SourceRight(t: Tool, options: Options, sources: seq<SourceFile>, known: map<Bytes, Known>, i: nat)
    requires PathsDistinct(sources) && i < |sources|
    ensures var asset := Planned(t, options, sources[i].path, Some(sources[i]), Get(known, sources[i].path));
            Right(t, options, sources, known, asset) && asset.path == sources[i].path
            && asset.change == ChangeOf(sources[i], Get(known, sources[i].path))
  {
    FindsItself(sources, i);
  }

  lemma SortedHas(assets: seq<PlannedAsset>, sorted: seq<PlannedAsset>)
    requires forall x :: x in sorted <==> x in assets
    ensures forall path :: HasPath(assets, path) <==> HasPath(sorted, path)
  {
  }

  /** Lists what is left of the release as removed. */
  method AddRemoved(t: Tool, options: Options, sources: seq<SourceFile>, ghost released: Catalog,
                    ghost known: map<Bytes, Known>, assets: seq<PlannedAsset>,
                    left: Catalog) returns (all: seq<PlannedAsset>)
    requires EachRight(t, options, sources, known, assets) && |assets| == |sources| && PathsDistinct(sources)
    requires forall k :: 0 <= k < |sources| ==> assets[k].path == sources[k].path
    requires Describes(released, known) && Remaining(released, left, sources, |sources|)
    ensures EachRight(t, options, sources, known, all)
    ensures forall i, j :: 0 <= i < j < |all| ==> all[i].path != all[j].path
    ensures (forall s :: s in sources ==> HasPath(all, s.path)) && (forall path :: path in known ==> HasPath(all, path))
  {
    hide Right, Planned, HasPath, Find, EachRight, Apart, Covered, Remaining, Describes;
    all := assets;
    var rest := left.Keys;
    SourcesListed(sources, released, left, assets);
    SourcesApart(sources, assets, left.Keys);
    ghost var done: set<Bytes> := {};
    while rest != {}
      invariant done + rest == left.Keys && EachRight(t, options, sources, known, all)
      invariant Apart(all, rest) && Covered(all, assets, done)
      decreases |rest|
    {
      var path :| path in rest;
      var asset := PlannedAsset(path, None, Some(left[path].logicalLen), left[path].access,
                                options.AvailabilityOf(path), Removed);
      RemovedRight(t, options, sources, released, known, left, path);
      RightAppend(t, options, sources, known, all, asset);
      StillApart(all, assets, asset, done, rest);
      all := all + [asset];
      rest, done := rest - {path}, done + {path};
    }
    ApartAtLast(all);
    AllCovered(all, assets, left);
    AllListed(sources, released, left, known, assets, all);
  }

  /** No path twice, and none of those still to be listed. */
  ghost predicate Apart(assets: seq<PlannedAsset>, rest: set<Bytes>) {
    && (forall i, j :: 0 <= i < j < |assets| ==> assets[i].path != assets[j].path)
    && forall i :: 0 <= i < |assets| ==> assets[i].path !in rest
  }

  /** Every path of these is listed. */
  ghost predicate Covered(all: seq<PlannedAsset>, assets: seq<PlannedAsset>, paths: set<Bytes>) {
    forall path :: path in paths || HasPath(assets, path) ==> HasPath(all, path)
  }

  lemma SourcesApart(sources: seq<SourceFile>, assets: seq<PlannedAsset>, paths: set<Bytes>)
    requires PathsDistinct(sources) && |assets| == |sources|
    requires forall k :: 0 <= k < |sources| ==> assets[k].path == sources[k].path
    requires forall a :: a in assets ==> a.path !in paths
    ensures Apart(assets, paths) && Covered(assets, assets, {})
  {
    hide HasPath;
    assert forall i :: 0 <= i < |assets| ==> assets[i] in assets;
  }

  lemma StillApart(all: seq<PlannedAsset>, assets: seq<PlannedAsset>, asset: PlannedAsset, paths: set<Bytes>,
                   rest: set<Bytes>)
    requires Apart(all, rest) && Covered(all, assets, paths) && asset.path in rest
    ensures Apart(all + [asset], rest - {asset.path}) && Covered(all + [asset], assets, paths + {asset.path})
  {
    hide HasPath;
    HasPathStill(all, asset);
  }

  lemma ApartAtLast(all: seq<PlannedAsset>)
    requires Apart(all, {})
    ensures forall i, j :: 0 <= i < j < |all| ==> all[i].path != all[j].path
  {
  }

  lemma AllCovered(all: seq<PlannedAsset>, assets: seq<PlannedAsset>, left: Catalog)
    requires Covered(all, assets, left.Keys)
    ensures forall path :: path in left || HasPath(assets, path) ==> HasPath(all, path)
  {
    hide HasPath;
  }

  lemma SourcesListed(sources: seq<SourceFile>, released: Catalog, left: Catalog, assets: seq<PlannedAsset>)
    requires |assets| == |sources| && forall k :: 0 <= k < |sources| ==> assets[k].path == sources[k].path
    requires Remaining(released, left, sources, |sources|)
    ensures forall a :: a in assets ==> a.path !in left
    ensures forall s :: s in sources ==> HasPath(assets, s.path)
  {
    assert sources[..|sources|] == sources;
    forall a | a in assets
      ensures a.path !in left
    {
      var k :| 0 <= k < |assets| && assets[k] == a;
      assert sources[k] in sources;
    }
    forall s | s in sources
      ensures HasPath(assets, s.path)
    {
      var k :| 0 <= k < |sources| && sources[k] == s;
      assert assets[k] in assets;
    }
  }

  lemma AllListed(sources: seq<SourceFile>, released: Catalog, left: Catalog, known: map<Bytes, Known>,
                  assets: seq<PlannedAsset>, all: seq<PlannedAsset>)
    requires |assets| == |sources| && forall k :: 0 <= k < |sources| ==> assets[k].path == sources[k].path
    requires Describes(released, known) && Remaining(released, left, sources, |sources|)
    requires forall path :: path in left || HasPath(assets, path) ==> HasPath(all, path)
    ensures (forall s :: s in sources ==> HasPath(all, s.path)) && (forall path :: path in known ==> HasPath(all, path))
  {
    SourcesListed(sources, released, left, assets);
    assert sources[..|sources|] == sources;
    hide HasPath;
    forall path | path in known
      ensures HasPath(all, path)
    {
      if path !in left {
        assert HasPath(assets, Find(sources, path).value.path);
      }
    }
  }

  lemma RemovedRight(t: Tool, options: Options, sources: seq<SourceFile>, released: Catalog, known: map<Bytes, Known>,
                     left: Catalog, path: Bytes)
    requires Describes(released, known) && Remaining(released, left, sources, |sources|) && path in left
    ensures Right(t, options, sources, known, PlannedAsset(path, None, Some(left[path].logicalLen), left[path].access,
                                                           options.AvailabilityOf(path), Removed))
  {
    assert sources[..|sources|] == sources;
  }

  lemma HasPathStill(assets: seq<PlannedAsset>, a: PlannedAsset)
    ensures forall path :: HasPath(assets, path) ==> HasPath(assets + [a], path)
    ensures HasPath(assets + [a], a.path)
  {
    assert a in assets + [a];
    forall path | HasPath(assets, path)
      ensures HasPath(assets + [a], path)
    {
      var x :| x in assets && x.path == path;
      assert x in assets + [a];
    }
  }

  // ------------------------------------------------------------------ the metadata-only plan

  /** What the metadata-only plan checks of one source: the release has its path with its length and class. */
  predicate AgreesInMetadata(t: Tool, source: SourceFile, released: Catalog) {
    && source.path in released && released[source.path].logicalLen == source.len
    && released[source.path].access == Classify(t, source).access
  }

  ghost predicate SameInventory(t: Tool, sources: seq<SourceFile>, released: Catalog) {
    && (forall s :: s in sources ==> AgreesInMetadata(t, s, released))
    && (forall path :: path in released ==> Find(sources, path).Some?)
  }

  /** The plan right after packing: no body is read, and every asset is taken to be unchanged. */
  method PlanAfterPack(t: Tool, options: Options, sources: seq<SourceFile>, sequence: nat, released: Catalog)
    returns (r: Result<ReleasePlan>)
    requires PathsDistinct(sources) && forall i, j :: 0 <= i < j < |sources| ==> Less(sources[i].path, sources[j].path)
    ensures r.Ok? <==> TotalBytes(sources) < U64_LIMIT && SameInventory(t, sources, released)
    ensures r.Ok? ==>
              r.value == ReleasePlan(Some(sequence), MetadataAssets(t, options, sources), TotalBytes(sources), 0)
  {
    hide Remaining, Find, TotalBytes;
    EverythingRemains(released, sources);
    var sourceBytes := SumSources(sources);
    if sourceBytes.Err? {
      return Err(sourceBytes.error);
    }
    var left := released;
    var assets: seq<PlannedAsset> := [];
    for i := 0 to |sources|
      invariant assets == MetadataAssets(t, options, sources[..i]) && Remaining(released, left, sources, i)
      invariant forall k :: 0 <= k < i ==> AgreesInMetadata(t, sources[k], released)
    {
      var source := sources[i];
      assert source in sources;
      StillThere(released, left, sources, i);
      if source.path !in left {
        return Err(InvalidInput);
      }
      var file := left[source.path];
      if file.logicalLen != source.len || file.access != Classify(t, source).access {
        return Err(InvalidInput);
      }
      assert MetadataAssets(t, options, sources[..i + 1]) == MetadataAssets(t, options, sources[..i])
          + [MetadataAsset(t, options, source)];
      assets := assets + [PlannedAsset(source.path, Some(source.len), Some(file.logicalLen), Classify(t, source).access,
                                       options.AvailabilityOf(source.path), Unchanged)];
      OneLess(released, left, sources, i);
      left := left - {source.path};
    }
    assert sources[..|sources|] == sources;
    LeftOver(released, left, sources);
    if left.Keys != {} {
      return Err(InvalidInput);
    }
    return Ok(ReleasePlan(Some(sequence), assets, sourceBytes.value, 0));
  }

  lemma EverythingRemains(released: Catalog, sources: seq<SourceFile>)
    ensures Remaining(released, released, sources, 0)
  {
  }

  lemma LeftOver(released: Catalog, left: Catalog, sources: seq<SourceFile>)
    requires Remaining(released, left, sources, |sources|)
    ensures left.Keys == {} <==> forall path :: path in released ==> Find(sources, path).Some?
  {
    assert sources[..|sources|] == sources;
    assert forall path :: path in left <==> path in released && Find(sources, path).None?;
  }

  function MetadataAsset(t: Tool, options: Options, source: SourceFile): PlannedAsset {
    PlannedAsset(source.path, Some(source.len), Some(source.len), Classify(t, source).access,
                 options.AvailabilityOf(source.path), Unchanged)
  }

  function MetadataAssets(t: Tool, options: Options, sources: seq<SourceFile>): (r: seq<PlannedAsset>)
    ensures |r| == |sources| && forall i :: 0 <= i < |r| ==> r[i] == MetadataAsset(t, options, sources[i])
  {
    seq(|sources|, i requires 0 <= i < |sources| => MetadataAsset(t, options, sources[i]))
  }

  /** The release was packed from these sources. */
  ghost predicate PackedFrom(sources: seq<SourceFile>, known: map<Bytes, Known>) {
    forall s :: s in sources && s.path in known ==> Same(s, known[s.path].content)
  }

  /** When the release was packed from these very sources, the metadata-only plan is the exact plan, hence
  whatever the full comparison would give. */
  lemma MetadataPlanIsExact(t: Tool, options: Options, sources: seq<SourceFile>, sequence: nat, released: Catalog,
                            known: map<Bytes, Known>)
    requires PathsDistinct(sources) && forall i, j :: 0 <= i < j < |sources| ==> Less(sources[i].path, sources[j].path)
    requires Describes(released, known) && SameInventory(t, sources, released) && PackedFrom(sources, known)
    ensures Exact(t, options, sources, known, ReleasePlan(Some(sequence), MetadataAssets(t, options, sources),
                                                          TotalBytes(sources), 0))
  {
    hide Same, Right, Planned, Describes, PackedFrom, ChangedBytes, TotalBytes, MetadataAsset, Find, HasPath, Less,
         SameInventory, PathsDistinct;
    var assets := MetadataAssets(t, options, sources);
    forall a | a in assets
      ensures Right(t, options, sources, known, a)
    {
      var i :| 0 <= i < |assets| && assets[i] == a;
      MetadataRight(t, options, sources, released, known, i);
    }
    MetadataPaths(t, options, sources);
    KnownAreReleased(released, known);
    MetadataHas(t, options, sources, released);
    NothingChanged(t, sources, released, known, |sources|);
    assert sources[..|sources|] == sources;
  }

  lemma MetadataPaths(t: Tool, options: Options, sources: seq<SourceFile>)
    requires forall i, j :: 0 <= i < j < |sources| ==> Less(sources[i].path, sources[j].path)
    ensures Ascending(PathsOf(MetadataAssets(t, options, sources)))
  {
    hide Less, Classify;
    var assets := MetadataAssets(t, options, sources);
    assert forall i :: 0 <= i < |assets| ==> assets[i].path == sources[i].path;
  }

  lemma MetadataHas(t: Tool, options: Options, sources: seq<SourceFile>, released: Catalog)
    requires SameInventory(t, sources, released)
    ensures forall s :: s in sources ==> HasPath(MetadataAssets(t, options, sources), s.path)
    ensures forall path :: path in released ==> HasPath(MetadataAssets(t, options, sources), path)
  {
    hide Classify, AgreesInMetadata, Find;
    var assets := MetadataAssets(t, options, sources);
    forall s | s in sources
      ensures HasPath(assets, s.path)
    {
      var i :| 0 <= i < |sources| && sources[i] == s;
      assert assets[i] in assets;
    }
    forall path | path in released
      ensures HasPath(assets, path)
    {
      assert HasPath(assets, Find(sources, path).value.path);
    }
  }

  lemma KnownAreReleased(released: Catalog, known: map<Bytes, Known>)
    requires Describes(released, known)
    ensures forall path :: path in known ==> path in released
  {
  }

  lemma MetadataRight(t: Tool, options: Options, sources: seq<SourceFile>, released: Catalog, known: map<Bytes, Known>,
                      i: nat)
    requires PathsDistinct(sources) && i < |sources|
    requires Describes(released, known) && SameInventory(t, sources, released) && PackedFrom(sources, known)
    ensures Right(t, options, sources, known, MetadataAsset(t, options, sources[i]))
    ensures MetadataAsset(t, options, sources[i]).path == sources[i].path
  {
    hide Same, Right, Find;
    assert sources[i] in sources && AgreesInMetadata(t, sources[i], released);
    SourceRight(t, options, sources, known, i);
  }

  lemma {:induction false} NothingChanged(t: Tool, sources: seq<SourceFile>, released: Catalog,
                                          known: map<Bytes, Known>, k: nat)
    requires k <= |sources| && Describes(released, known) && SameInventory(t, sources, released)
    requires PackedFrom(sources, known)
    ensures ChangedBytes(sources[..k], known) == 0
  {
    hide Same;
    if k > 0 {
      NothingChanged(t, sources, released, known, k - 1);
      assert sources[..k][..k - 1] == sources[..k - 1] && sources[k - 1] in sources;
      assert AgreesInMetadata(t, sources[k - 1], released);
    }
  }

  // ------------------------------------------------------------------ right after packing

  /** The listing of an open release. */
  function ReleasedOf(paths: seq<Bytes>, files: seq<FileRecord>): Catalog
    requires |paths| == |files|
  {
    if paths == [] then map[]
    else
      var n := |paths| - 1;
      ReleasedOf(paths[..n], files[..n])[paths[n] := files[n]]
  }

  /** What a release packed from the sources knows of each. */
  function KnownOf(t: Tool, sources: seq<SourceFile>): map<Bytes, Known> {
    if sources == [] then map[]
    else
      var last := sources[|sources| - 1];
      KnownOf(t, sources[..|sources| - 1])[last.path := Known(last.len, Classify(t, last).access, ContentOf(last))]
  }

  lemma {:induction false} ReleasedAt(paths: seq<Bytes>, files: seq<FileRecord>)
    requires |paths| == |files| && forall i, j :: 0 <= i < j < |paths| ==> paths[i] != paths[j]
    ensures forall path :: path in ReleasedOf(paths, files) <==> path in paths
    ensures forall i :: 0 <= i < |paths| ==>
              paths[i] in ReleasedOf(paths, files) && ReleasedOf(paths, files)[paths[i]] == files[i]
  {
    if paths != [] {
      var n := |paths| - 1;
      ReleasedAt(paths[..n], files[..n]);
      assert paths == paths[..n] + [paths[n]];
    }
  }

  lemma {:induction false} KnownAt(t: Tool, sources: seq<SourceFile>)
    requires PathsDistinct(sources)
    ensures forall path :: path in KnownOf(t, sources) ==> exists i :: 0 <= i < |sources| && sources[i].path == path
    ensures forall i :: 0 <= i < |sources| ==>
              && sources[i].path in KnownOf(t, sources)
              && KnownOf(t, sources)[sources[i].path]
                     == Known(sources[i].len, Classify(t, sources[i]).access, ContentOf(sources[i]))
  {
    hide Classify;
    if sources != [] {
      KnownAt(t, sources[..|sources| - 1]);
    }
  }

  /** A release that contains the sources meets what the planner asks of one: its listing describes them, its assets
  read as their content, and it was packed from them. */
  lemma PackedReleaseIsKnown(t: Tool, options: Options, projectId: Bytes, data: map<Bytes, Bytes>,
                             library: map<Bytes, Manifest>, s: Snapshot, sources: seq<SourceFile>, c: PageCrypto,
                             e: EncryptedPages)
    requires ToolSound(t) && SnapshotOk(t, projectId, data, library, s) && PathsDistinct(sources)
    requires AssetsOk(t, options, s.files, s.paths, s.pathPool, sources, SnapshotLines(s, library))
    ensures |s.paths| == |s.files|
    ensures var released, known := ReleasedOf(s.paths, s.files), KnownOf(t, sources);
            && Describes(released, known) && SameInventory(t, sources, released) && PackedFrom(sources, known)
            && forall path :: path in known ==>
                 Tiles(released[path], ReleaseOf(t, projectId, data, library, s, c, e), known[path].content)
  {
    hide ToolSound, SnapshotOk, AssetsOk, SnapshotLines, Tiles, ReleasedOf, KnownOf, Classify, ReleaseOf, PathsDistinct,
         Describes, SameInventory, PackedFrom;
    Opening.PathsListed(t, options, projectId, data, library, s, sources, []);
    forall i | 0 <= i < |sources|
      ensures FileKnown(t, ReleaseOf(t, projectId, data, library, s, c, e), s.files[i], sources[i])
    {
      AssetLength(t, options, s, library, sources, i);
      PublishedTiles(t, options, projectId, data, library, s, sources, c, e, i);
    }
    FilesAreKnown(t, ReleaseOf(t, projectId, data, library, s, c, e), s.paths, s.files, sources);
    FilesAreSame(t, ReleaseOf(t, projectId, data, library, s, c, e), s.files, sources);
  }

  /** The record of an asset agrees with its source, and the asset reads as the source's content. */
  ghost predicate FileKnown(t: Tool, r: Release, file: FileRecord, source: SourceFile) {
    && file.logicalLen == source.len == |ContentOf(source)| && file.access == Classify(t, source).access
    && Tiles(file, r, ContentOf(source))
  }

  lemma FilesAreKnown(t: Tool, r: Release, paths: seq<Bytes>, files: seq<FileRecord>, sources: seq<SourceFile>)
    requires PathsDistinct(sources) && |paths| == |files| == |sources|
    requires forall i :: 0 <= i < |sources| ==> paths[i] == sources[i].path && FileKnown(t, r, files[i], sources[i])
    ensures var released, known := ReleasedOf(paths, files), KnownOf(t, sources);
            && Describes(released, known) && SameInventory(t, sources, released)
            && forall path :: path in known ==> Tiles(released[path], r, known[path].content)
  {
    hide Tiles, ReleasedOf, KnownOf, Find, PathsDistinct, FileKnown, AgreesInMetadata;
    var released, known := ReleasedOf(paths, files), KnownOf(t, sources);
    SameKeys(t, paths, files, sources);
    forall path | path in known
      ensures path in released && released[path].logicalLen == known[path].len == |known[path].content|
           && released[path].access == known[path].access && Tiles(released[path], r, known[path].content)
           && Find(sources, path).Some?
    {
      PathIsKnown(t, r, paths, files, sources, path);
    }
    forall s | s in sources
      ensures AgreesInMetadata(t, s, released)
    {
      SourceAgrees(t, r, paths, files, sources, s);
    }
  }

  lemma PathIsKnown(t: Tool, r: Release, paths: seq<Bytes>, files: seq<FileRecord>, sources: seq<SourceFile>,
                    path: Bytes)
    requires PathsDistinct(sources) && |paths| == |files| == |sources|
    requires forall i :: 0 <= i < |sources| ==> paths[i] == sources[i].path && FileKnown(t, r, files[i], sources[i])
    requires path in KnownOf(t, sources)
    ensures var released, known := ReleasedOf(paths, files), KnownOf(t, sources);
            && path in released && released[path].logicalLen == known[path].len == |known[path].content|
            && released[path].access == known[path].access && Tiles(released[path], r, known[path].content)
    ensures Find(sources, path).Some?
  {
    hide Tiles, ReleasedOf, KnownOf, Find, Classify, PathsDistinct;
    DistinctPaths(sources, paths);
    ReleasedAt(paths, files);
    KnownAt(t, sources);
    var i :| 0 <= i < |sources| && sources[i].path == path;
    FindsItself(sources, i);
    assert FileKnown(t, r, files[i], sources[i]);
  }

  lemma SourceAgrees(t: Tool, r: Release, paths: seq<Bytes>, files: seq<FileRecord>, sources: seq<SourceFile>,
                     s: SourceFile)
    requires PathsDistinct(sources) && |paths| == |files| == |sources| && s in sources
    requires forall i :: 0 <= i < |sources| ==> paths[i] == sources[i].path && FileKnown(t, r, files[i], sources[i])
    ensures AgreesInMetadata(t, s, ReleasedOf(paths, files))
  {
    hide Tiles, ReleasedOf, Classify, PathsDistinct;
    DistinctPaths(sources, paths);
    ReleasedAt(paths, files);
    var i :| 0 <= i < |sources| && sources[i] == s;
    assert FileKnown(t, r, files[i], sources[i]);
  }

  lemma SameKeys(t: Tool, paths: seq<Bytes>, files: seq<FileRecord>, sources: seq<SourceFile>)
    requires PathsDistinct(sources) && |paths| == |files| == |sources|
    requires forall i :: 0 <= i < |sources| ==> paths[i] == sources[i].path
    ensures ReleasedOf(paths, files).Keys == KnownOf(t, sources).Keys
  {
    hide ReleasedOf, KnownOf, Classify, PathsDistinct;
    DistinctPaths(sources, paths);
    ReleasedAt(paths, files);
    KnownAt(t, sources);
    forall path
      ensures path in ReleasedOf(paths, files) <==> path in KnownOf(t, sources)
    {
      if path in ReleasedOf(paths, files) {
        var i :| 0 <= i < |paths| && paths[i] == path;
      }
    }
  }

  lemma FilesAreSame(t: Tool, r: Release, files: seq<FileRecord>, sources: seq<SourceFile>)
    requires PathsDistinct(sources) && |files| == |sources|
    requires forall i :: 0 <= i < |sources| ==> FileKnown(t, r, files[i], sources[i])
    ensures PackedFrom(sources, KnownOf(t, sources))
  {
    hide Tiles, KnownOf, Classify, Same, PathsDistinct;
    KnownAt(t, sources);
    forall i | 0 <= i < |sources|
      ensures Same(sources[i], ContentOf(sources[i]))
    {
      assert FileKnown(t, r, files[i], sources[i]);
      SameAsPacked(sources[i]);
    }
  }

  lemma DistinctPaths(sources: seq<SourceFile>, paths: seq<Bytes>)
    requires PathsDistinct(sources) && |paths| == |sources|
    requires forall i :: 0 <= i < |paths| ==> paths[i] == sources[i].path
    ensures forall i, j :: 0 <= i < j < |paths| ==> paths[i] != paths[j]
  {
  }

  lemma SameAsPacked(source: SourceFile)
    requires |ContentOf(source)| == source.len
    ensures Same(source, ContentOf(source))
  {
    assert source.body[..|source.body|] == source.body;
  }

  lemma AssetLength(t: Tool, options: Options, s: Snapshot, library: map<Bytes, Manifest>, sources: seq<SourceFile>,
                    i: nat)
    requires ToolSound(t) && AssetsOk(t, options, s.files, s.paths, s.pathPool, sources, SnapshotLines(s, library))
    requires i < |sources|
    ensures |s.files| == |sources| && s.files[i].logicalLen == sources[i].len == |ContentOf(sources[i])|
    ensures s.files[i].access == Classify(t, sources[i]).access
  {
    hide ToolSound, SnapshotLines, AssetAt, Classify;
    assert AssetAt(t, options, s.files, s.paths, s.pathPool, sources[i], SnapshotLines(s, library), i);
    ListedLength(t, options, s, library, sources[i], i);
  }

  /** Right after packing the metadata-only plan succeeds, and it is the plan that a full comparison would give. */
  lemma PlanAfterPackIsExact(t: Tool, options: Options, projectId: Bytes, data: map<Bytes, Bytes>,
                             library: map<Bytes, Manifest>, s: Snapshot, sources: seq<SourceFile>, c: PageCrypto,
                             e: EncryptedPages, full: ReleasePlan)
    requires ToolSound(t) && SnapshotOk(t, projectId, data, library, s)
    requires AssetsOk(t, options, s.files, s.paths, s.pathPool, sources, SnapshotLines(s, library))
    requires PathsDistinct(sources) && forall i, j :: 0 <= i < j < |sources| ==> Less(sources[i].path, sources[j].path)
    requires Exact(t, options, sources, KnownOf(t, sources), full) && full.previousRelease == Some(s.sequence)
    ensures |s.paths| == |s.files| && SameInventory(t, sources, ReleasedOf(s.paths, s.files))
    ensures full == ReleasePlan(Some(s.sequence), MetadataAssets(t, options, sources), TotalBytes(sources), 0)
  {
    hide ToolSound, SnapshotOk, AssetsOk, SnapshotLines, Exact, Describes, SameInventory, PackedFrom, ReleasedOf,
         KnownOf, TotalBytes, Tiles;
    PackedReleaseIsKnown(t, options, projectId, data, library, s, sources, c, e);
    MetadataPlanIsExact(t, options, sources, s.sequence, ReleasedOf(s.paths, s.files), KnownOf(t, sources));
    ExactIsUnique(t, options, sources, KnownOf(t, sources), full,
                  ReleasePlan(Some(s.sequence), MetadataAssets(t, options, sources), TotalBytes(sources), 0));
  }
}
