/** Release chains: any number of builds, full or incremental, over one output directory. */
module Chains {
  import opened Basics
  import opened Records
  import opened Sources
  import opened SegmentStore
  import opened Placement
  import opened Builds
  import opened Releases
  import opened Assets
  import opened DevelopmentCaches
  import opened Printing
  import opened Publishing
  import opened SetSums
  import Compaction
  import Pages
  import Storage

  // ------------------------------------------------------------------ fragmentation

  ghost function SmallSet(segments: seq<SegmentRecord>): set<SegmentRecord> {
    set x | x in segments && x.fileLen <= 64 * 1024
  }

  lemma {:induction false} SmallCountIs(segments: seq<SegmentRecord>)
    requires NamesDistinct(segments)
    ensures |SmallSet(segments)| == Compaction.SmallCount(segments)
  {
    if segments != [] {
      var n := |segments| - 1;
      SmallCountIs(segments[..n]);
      assert segments == segments[..n] + [segments[n]];
      assert SmallSet(segments) == SmallSet(segments[..n])
          + (if segments[n].fileLen <= 64 * 1024 then {segments[n]} else {});
      assert segments[n] !in segments[..n];
    }
  }

  /** Everything worth rewriting fits the rewrite budget. */
  ghost predicate AllFit(s: Snapshot)
    requires |s.chunkIds| <= |s.blocks|
  {
    var live := Compaction.Firsts(Pages.Zip(s.chunkIds, s.blocks));
    Sum(Compaction.Candidates(s.segments, live), Compaction.LivePlain(s.segments, live)) <= 64 * 1024 * 1024
  }

  /** Among many small segments every one is chosen, so none of them is carried over. */
  lemma ManySmallAllGo(s: Snapshot, x: SegmentRecord)
    requires |s.chunkIds| <= |s.blocks| && AllFit(s) && Compaction.Fragmented(s.segments)
    requires x.fileLen <= 64 * 1024
    ensures !NotChosen(x, s)
  {
    hide Compaction.Firsts, Compaction.LiveBytes, Compaction.SmallCount, Compaction.Chosen;
    var live := Compaction.Firsts(Pages.Zip(s.chunkIds, s.blocks));
    Compaction.ChosenIsBest(s.segments, live);
    forall i | 0 <= i < |s.segments| && s.segments[i] == x
      ensures i in ChosenOf(s)
    {
    }
  }

  /** Less than a mebibyte of the segment's payload, or less than half of it, is dead: no block of the release refers
  to it. */
  ghost predicate MostlyLive(s: Snapshot, i: nat)
    requires i < |s.segments|
  {
    var dead := Storage.DeadBytes(s.segments, s.blocks, i);
    dead < 1024 * 1024 || 2 * dead < s.segments[i].payloadLen
  }

  /** What consolidation looks at: a segment is chosen for one of two reasons only. Among 64 small ones every small one
  has a reason, and so has every segment of which a mebibyte and at least half is dead. */
  lemma ReasonToRewrite(t: Tool, projectId: Bytes, data: map<Bytes, Bytes>, library: map<Bytes, Manifest>, s: Snapshot,
                        i: nat)
    requires SnapshotOk(t, projectId, data, library, s) && i < |s.segments|
    ensures i in ChosenOf(s) ==>
              !MostlyLive(s, i) || (s.segments[i].fileLen <= 64 * 1024 && |SmallSet(s.segments)| >= 64)
    ensures AllFit(s) && i !in ChosenOf(s) ==>
              MostlyLive(s, i) && (s.segments[i].fileLen > 64 * 1024 || |SmallSet(s.segments)| < 64)
  {
    hide ById, LibraryOk, BlockAt, SegmentNeeded, Compaction.Firsts, Compaction.LiveBytes, Compaction.SmallCount,
         Compaction.Chosen, Storage.Referenced, Storage.Backed, SmallSet, Storage.FileTotal;
    var live := Compaction.Firsts(Pages.Zip(s.chunkIds, s.blocks));
    SnapshotIsBacked(t, projectId, data, library, s);
    Storage.CountedIsReferenced(s.segments, s.blocks, s.chunkIds, ManifestsOf(s.segments, library), i);
    ByIdDistinct(s.segments);
    SmallCountIs(s.segments);
    Compaction.ChosenIsBest(s.segments, live);
    assert i in Compaction.Candidates(s.segments, live)
        <==> !MostlyLive(s, i) || (s.segments[i].fileLen <= 64 * 1024 && |SmallSet(s.segments)| >= 64);
  }

  /** A large segment that is mostly live is never chosen, whatever else there is. */
  lemma MostlyLiveIsSpared(t: Tool, projectId: Bytes, data: map<Bytes, Bytes>, library: map<Bytes, Manifest>,
                           s: Snapshot, i: nat)
    requires SnapshotOk(t, projectId, data, library, s) && i < |s.segments|
    requires s.segments[i].fileLen > 64 * 1024 && MostlyLive(s, i)
    ensures i !in ChosenOf(s) && NotChosen(s.segments[i], s)
  {
    hide SnapshotOk, AllFit, MostlyLive, ChosenOf;
    ReasonToRewrite(t, projectId, data, library, s, i);
    CountsOfSnapshot(t, projectId, data, library, s);
  }

  lemma CountsOfSnapshot(t: Tool, projectId: Bytes, data: map<Bytes, Bytes>, library: map<Bytes, Manifest>,
                         s: Snapshot)
    requires SnapshotOk(t, projectId, data, library, s)
    ensures |s.chunkIds| == |s.blocks| && NamesDistinct(s.segments)
  {
    hide ById, LibraryOk, BlockAt, SegmentNeeded, Storage.FileTotal;
    ByIdDistinct(s.segments);
  }

  /** What a build carries over from a release that could afford its consolidation was mostly live there. */
  lemma CarriedIsMostlyLive(t: Tool, projectId: Bytes, data: map<Bytes, Bytes>, library: map<Bytes, Manifest>,
                            s: Snapshot, i: nat)
    requires SnapshotOk(t, projectId, data, library, s) && AllFit(s) && i < |s.segments|
    requires NotChosen(s.segments[i], s)
    ensures MostlyLive(s, i)
  {
    hide SnapshotOk, AllFit, MostlyLive, ChosenOf;
    CountsOfSnapshot(t, projectId, data, library, s);
    ReasonToRewrite(t, projectId, data, library, s, i);
  }

  lemma {:induction false} DeadBound(s: Snapshot, n: nat)
    requires n <= |s.segments|
    requires forall i :: 0 <= i < n ==> MostlyLive(s, i) && Storage.DeadBytes(s.segments, s.blocks, i) >= 0
    ensures 2 * Storage.DeadTotal(s.segments, s.blocks, n)
            <= 2 * 1024 * 1024 * n + Storage.PayloadTotal(s.segments[..n])
  {
    hide Storage.DeadBytes;
    if n > 0 {
      DeadBound(s, n - 1);
      assert s.segments[..n][..n - 1] == s.segments[..n - 1];
    }
  }

  /** A release from which consolidation has nothing to take strands at most half its payload and a mebibyte for each
  of its segments. */
  lemma NothingChosenStrandsLittle(t: Tool, projectId: Bytes, data: map<Bytes, Bytes>, library: map<Bytes, Manifest>,
                                   s: Snapshot)
    requires SnapshotOk(t, projectId, data, library, s) && AllFit(s) && ChosenOf(s) == {}
    ensures Storage.LedgerOk(s.segments, s.blocks)
    ensures 2 * StatsOf(s).stranded <= Storage.PayloadTotal(s.segments) + 2 * 1024 * 1024 * |s.segments|
  {
    hide SnapshotOk, AllFit, MostlyLive, ChosenOf, Storage.LedgerOk, Storage.DeadBytes, Storage.Referenced;
    LedgerOfSnapshot(t, projectId, data, library, s);
    LedgerCovers(s);
    forall i | 0 <= i < |s.segments|
      ensures MostlyLive(s, i) && Storage.DeadBytes(s.segments, s.blocks, i) >= 0
    {
      ReasonToRewrite(t, projectId, data, library, s, i);
      DeadIsNatural(t, projectId, data, library, s, i);
    }
    DeadBound(s, |s.segments|);
    assert s.segments[..|s.segments|] == s.segments;
    Storage.StrandedIsDead(s.segments, s.blocks);
  }

  lemma LedgerCovers(s: Snapshot)
    requires Storage.LedgerOk(s.segments, s.blocks)
    ensures Storage.InSegments(s.segments, s.blocks)
  {
  }

  lemma DeadIsNatural(t: Tool, projectId: Bytes, data: map<Bytes, Bytes>, library: map<Bytes, Manifest>, s: Snapshot,
                      i: nat)
    requires SnapshotOk(t, projectId, data, library, s) && i < |s.segments|
    ensures Storage.DeadBytes(s.segments, s.blocks, i) >= 0
  {
    hide ById, LibraryOk, BlockAt, SegmentNeeded, Compaction.Firsts, Compaction.LiveBytes, Storage.Referenced,
         Storage.Backed, Storage.FileTotal;
    SnapshotIsBacked(t, projectId, data, library, s);
    var ms := ManifestsOf(s.segments, library);
    Storage.BackedIsWellReferenced(s.segments, s.blocks, s.chunkIds, ms);
    Storage.CountedIsReferenced(s.segments, s.blocks, s.chunkIds, ms, i);
  }

  /** Long-run fragmentation: whatever came before, a release has at most 63 small segments more than the
  number of segments that its build created, provided consolidation could afford its candidates. */
  lemma FewFragments(previous: Option<Snapshot>, s: Snapshot, created: nat)
    requires CarriedOver(previous, s, created) && ById(s.segments)
    requires previous.Some? ==> ById(previous.value.segments) && AllFit(previous.value)
    ensures |SmallSet(s.segments)| <= 63 + created
  {
    hide AllFit, NotChosen, Compaction.SmallCount;
    ByIdDistinct(s.segments);
    SmallCountIs(s.segments);
    var news :| NewOnes(news, previous, s, created);
    var small := SmallSet(s.segments);
    if previous.None? {
      SubsetSize(small, news);
    } else {
      var p := previous.value;
      ByIdDistinct(p.segments);
      SmallCountIs(p.segments);
      if Compaction.Fragmented(p.segments) {
        forall x | x in small
          ensures x in news
        {
          ManySmallAllGo(p, x);
        }
        SubsetSize(small, news);
      } else {
        SubsetSize(small, news + SmallSet(p.segments));
      }
    }
  }

  // ------------------------------------------------------------------------ chains

  datatype Request = Request(options: Options, sources: seq<SourceFile>, tape: seq<Draw>)

  /** The output directory between two builds, with the file operations that failed and the names and digests without
  the width of their field so far. */
  datatype Directory = Directory(snapshot: Option<Snapshot>, data: map<Bytes, Bytes>, library: map<Bytes, Manifest>,
                                 cacheFile: Option<Bytes>, faults: nat, misfits: nat)

  ghost function DirectoryOf(p: Publisher): Directory
    reads p
  {
    Directory(p.snapshot, p.data, p.library, p.cacheFile, p.faults, p.misfits)
  }

  /** The release in this directory contains the sources of the request, each asset with the content, chunking and
  availability that the request asks for, and everything it names lies in the directory. */
  ghost predicate FaithfulIn(t: Tool, projectId: Bytes, d: Directory, q: Request)
    requires ToolSound(t)
  {
    d.snapshot.Some? && ReleaseHolds(t, projectId, d.data, d.library, d.snapshot.value, q.options, q.sources)
  }

  /** No uid is ever drawn twice. */
  ghost predicate TapesFresh(requests: seq<Request>) {
    && (forall i :: 0 <= i < |requests| ==> TapeOk(requests[i].tape))
    && (forall i, j, k, l ::
          0 <= i < j < |requests| && 0 <= k < |requests[i].tape| && 0 <= l < |requests[j].tape| ==>
            requests[i].tape[k].uid != requests[j].tape[l].uid)
  }

  ghost predicate UnusedFor(requests: seq<Request>, i: nat, s: Option<Snapshot>) {
    s.Some? ==> forall j :: i <= j < |requests| ==> FreshUids(requests[j].tape, s.value.segments)
  }

  lemma StillUnused(requests: seq<Request>, i: nat, previous: Option<Snapshot>, s: Snapshot)
    requires TapesFresh(requests) && i < |requests| && UnusedFor(requests, i, previous)
    requires UidsDrawn(previous, s, requests[i].tape)
    ensures UnusedFor(requests, i + 1, Some(s))
  {
    forall j, a, b | i + 1 <= j < |requests| && 0 <= a < |requests[j].tape| && 0 <= b < |s.segments|
      ensures requests[j].tape[a].uid != s.segments[b].uid
    {
      var x := s.segments[b];
      assert x in s.segments;
      if previous.Some? && x in previous.value.segments {
        assert FreshUids(requests[j].tape, previous.value.segments);
      } else {
        var k :| 0 <= k < |requests[i].tape| && requests[i].tape[k].uid == x.uid;
      }
    }
  }

  /** The release in place is the one that was there, with all its segments. */
  ghost predicate Keeps(t: Tool, projectId: Bytes, before: Directory, after: Directory) {
    && after.snapshot == before.snapshot && after.library == before.library
    && (after.snapshot.Some? ==> SnapshotOk(t, projectId, after.data, after.library, after.snapshot.value))
  }

  /** The release in place is the one that was asked for, under the next sequence. */
  ghost predicate Moves(t: Tool, projectId: Bytes, before: Directory, after: Directory, q: Request, created: nat)
    requires ToolSound(t)
  {
    && FaithfulIn(t, projectId, after, q)
    && after.snapshot.value.sequence == NextSequence(before.snapshot, q.options.floor)
    && CarriedOver(before.snapshot, after.snapshot.value, created)
  }

  /** What only a file operation that failed, a misfit or a refusable request lets a build do without. */
  ghost predicate Served(t: Tool, canonical: Bytes -> bool, projectId: Bytes, before: Directory, after: Directory,
                         q: Request, r: Result<PackReport>)
    requires ToolSound(t)
  {
    && after.faults >= before.faults && after.misfits >= before.misfits
    && (r.Err? ==>
          || after.faults > before.faults || after.misfits > before.misfits
          || RefusedIn(t, canonical, projectId, before, q))
    && (r.Ok? ==> r.value.newBlocks <= |NewKeys(t, q.options, before.snapshot, q.sources)|)
  }

  ghost predicate RefusedIn(t: Tool, canonical: Bytes -> bool, projectId: Bytes, d: Directory, q: Request)
    requires ToolSound(t)
  {
    Refusable(t, canonical, d.snapshot, EntriesIn(t, projectId, canonical, d.snapshot, d.cacheFile, q.options),
              q.options, q.sources, |q.tape|)
  }

  /** How one build moves the chain, whether it succeeds or fails: the release is kept or becomes the requested one.
  After a success it is the requested one and respects the floor. */
  ghost predicate ChainStep(t: Tool, canonical: Bytes -> bool, projectId: Bytes, before: Directory, after: Directory,
                            q: Request, r: Result<PackReport>, created: nat)
    requires ToolSound(t)
  {
    && (Keeps(t, projectId, before, after) || Moves(t, projectId, before, after, q, created))
    && Served(t, canonical, projectId, before, after, q, r)
    && (r.Ok? ==> FaithfulIn(t, projectId, after, q) && after.snapshot.value.sequence >= q.options.floor)
    && (r.Ok? ==>
          && Storage.LedgerOk(after.snapshot.value.segments, after.snapshot.value.blocks)
          && r.value.storage == StatsOf(after.snapshot.value))
    && (r.Ok? && !r.value.changed ==>
          Keeps(t, projectId, before, after) && NothingToDo(t, before.snapshot, q.options, q.sources))
    && (r.Ok? && r.value.changed ==>
          && Moves(t, projectId, before, after, q, created) && r.value.newSegments == created
          && r.value.reusedBlocks + r.value.newBlocks == |after.snapshot.value.blocks|)
  }

  /** Every build of a chain is a step from one directory to the next. */
  ghost predicate Chain(t: Tool, canonical: Bytes -> bool, projectId: Bytes, requests: seq<Request>,
                        reports: seq<Result<PackReport>>, directories: seq<Directory>, created: seq<nat>)
    requires ToolSound(t)
  {
    && |reports| == |created| <= |requests| && |directories| == |reports| + 1
    && forall i :: 0 <= i < |reports| ==>
         ChainStep(t, canonical, projectId, directories[i], directories[i + 1], requests[i], reports[i], created[i])
  }

  /** Any chain of builds, failing at any file operation. `directories` lists the output directory before the first
  build and after each. */
  method RunBuilds(p: Publisher, requests: seq<Request>)
    returns (reports: seq<Result<PackReport>>, ghost directories: seq<Directory>, ghost created: seq<nat>)
    requires p.Valid() && TapesFresh(requests) && UnusedFor(requests, 0, p.snapshot)
    requires forall i :: 0 <= i < |requests| ==>
               SourcesListed(requests[i].options, requests[i].sources, p.honest, p.canonical)
    modifies p
    ensures p.Valid() && |reports| == |requests|
    ensures Chain(p.tool, p.canonical, p.projectId, requests, reports, directories, created)
    ensures directories[0] == old(DirectoryOf(p)) && directories[|requests|] == DirectoryOf(p)
  {
    hide ToolSound, ChainStep, UidsDrawn, FreshUids, TapeOk, SourcesListed, Storage.LedgerOk, Publisher.Valid;
    ValidTool(p);
    reports, directories, created := [], [DirectoryOf(p)], [];
    for i := 0 to |requests|
      invariant p.Valid() && ToolSound(p.tool) && |reports| == i && UnusedFor(requests, i, p.snapshot)
      invariant Chain(p.tool, p.canonical, p.projectId, requests, reports, directories, created)
      invariant directories[0] == old(DirectoryOf(p)) && directories[i] == DirectoryOf(p)
    {
      var report, news := BuildNext(p, requests, i);
      reports, directories, created := reports + [report], directories + [DirectoryOf(p)], created + [news];
    }
  }

  lemma ValidTool(p: Publisher)
    requires p.Valid()
    ensures ToolSound(p.tool)
  {
    hide ToolSound, Publisher.Contains;
  }

  method BuildNext(p: Publisher, requests: seq<Request>, i: nat) returns (r: Result<PackReport>, ghost created: nat)
    requires p.Valid() && TapesFresh(requests) && i < |requests| && UnusedFor(requests, i, p.snapshot)
    requires SourcesListed(requests[i].options, requests[i].sources, p.honest, p.canonical)
    modifies p
    ensures p.Valid() && ToolSound(p.tool) && UnusedFor(requests, i + 1, p.snapshot)
    ensures ChainStep(p.tool, p.canonical, p.projectId, old(DirectoryOf(p)), DirectoryOf(p), requests[i], r, created)
  {
    hide ToolSound, SnapshotOk, AssetsOk, CarriedOver, UidsDrawn, FreshUids, TapeOk, SourcesListed, Storage.LedgerOk,
         FileTrue, PrintedOk, PressSound, SavedFor, AllCompared, Publisher.PathsProper, NothingToDo, NamesIn;
    ghost var before := p.snapshot;
    r, created := p.Build(requests[i].options, requests[i].sources, requests[i].tape);
    if p.snapshot != before {
      StillUnused(requests, i, before, p.snapshot.value);
    }
  }

  /** Along a chain in which no file operation fails, and every name and digest has the width of its field, every
  request that is not refusable for the release before it is published: its build succeeds, and the release in place
  then contains exactly its sources. */
  lemma {:induction false} EveryRequestPublished(t: Tool, canonical: Bytes -> bool, projectId: Bytes,
                                                 requests: seq<Request>, reports: seq<Result<PackReport>>,
                                                 directories: seq<Directory>, created: seq<nat>, i: nat)
    requires ToolSound(t) && Chain(t, canonical, projectId, requests, reports, directories, created)
    requires i < |reports| && !RefusedIn(t, canonical, projectId, directories[i], requests[i])
    requires directories[|reports|].faults == directories[0].faults
    requires directories[|reports|].misfits == directories[0].misfits
    ensures reports[i].Ok? && FaithfulIn(t, projectId, directories[i + 1], requests[i])
  {
    hide ToolSound, FaithfulIn, Keeps, Moves, NothingToDo, Storage.LedgerOk, RefusedIn;
    CountsGrow(t, canonical, projectId, requests, reports, directories, created, 0, i);
    CountsGrow(t, canonical, projectId, requests, reports, directories, created, i + 1, |reports|);
    assert ChainStep(t, canonical, projectId, directories[i], directories[i + 1], requests[i], reports[i], created[i]);
  }

  lemma {:induction false} CountsGrow(t: Tool, canonical: Bytes -> bool, projectId: Bytes, requests: seq<Request>,
                                      reports: seq<Result<PackReport>>, directories: seq<Directory>,
                                      created: seq<nat>, i: nat, j: nat)
    requires ToolSound(t) && Chain(t, canonical, projectId, requests, reports, directories, created)
    requires i <= j < |directories|
    ensures directories[i].faults <= directories[j].faults && directories[i].misfits <= directories[j].misfits
    decreases j
  {
    hide ToolSound, FaithfulIn, Keeps, Moves, NothingToDo, Storage.LedgerOk, RefusedIn;
    if i < j {
      CountsGrow(t, canonical, projectId, requests, reports, directories, created, i, j - 1);
      assert ChainStep(t, canonical, projectId, directories[j - 1], directories[j], requests[j - 1], reports[j - 1],
                       created[j - 1]);
    }
  }

  /** Sequences never decrease along a chain, and every new release has a greater one than all before it. */
  lemma {:induction false} SequencesGrow(t: Tool, canonical: Bytes -> bool, projectId: Bytes, requests: seq<Request>,
                                         reports: seq<Result<PackReport>>, directories: seq<Directory>,
                                         created: seq<nat>, i: nat, j: nat)
    requires ToolSound(t) && Chain(t, canonical, projectId, requests, reports, directories, created)
    requires i <= j < |directories|
    requires directories[i].snapshot.Some?
    ensures directories[j].snapshot.Some?
    ensures directories[j].snapshot == directories[i].snapshot
            || directories[j].snapshot.value.sequence > directories[i].snapshot.value.sequence
  {
    hide ToolSound, SnapshotOk, AssetsOk, CarriedOver;
    if i < j {
      SequencesGrow(t, canonical, projectId, requests, reports, directories, created, i, j - 1);
      assert ChainStep(t, canonical, projectId, directories[j - 1], directories[j], requests[j - 1], reports[j - 1],
                       created[j - 1]);
    }
  }

  /** The release is one that some build of the chain before was asked for. */
  ghost predicate Requested(t: Tool, projectId: Bytes, d: Directory, requests: seq<Request>, i: nat)
    requires ToolSound(t) && i <= |requests|
  {
    exists k :: 0 <= k < i && FaithfulIn(t, projectId, d, requests[k])
  }

  /** At any point of a chain that starts in a fresh directory, whatever failed before: the release in place, if there
  is one, contains exactly the sources of one of the requests, and everything it names lies in the directory. */
  lemma {:induction false} AlwaysFaithful(t: Tool, canonical: Bytes -> bool, projectId: Bytes, requests: seq<Request>,
                                          reports: seq<Result<PackReport>>, directories: seq<Directory>,
                                          created: seq<nat>, i: nat)
    requires ToolSound(t) && Chain(t, canonical, projectId, requests, reports, directories, created)
    requires i < |directories|
    requires directories[0].snapshot == None
    ensures directories[i].snapshot.Some? ==> Requested(t, projectId, directories[i], requests, i)
  {
    hide ToolSound, SnapshotOk, AssetsOk, CarriedOver;
    if i > 0 {
      AlwaysFaithful(t, canonical, projectId, requests, reports, directories, created, i - 1);
      assert ChainStep(t, canonical, projectId, directories[i - 1], directories[i], requests[i - 1], reports[i - 1],
                       created[i - 1]);
      if Keeps(t, projectId, directories[i - 1], directories[i]) {
        if directories[i].snapshot.Some? {
          var k :| 0 <= k < i - 1 && FaithfulIn(t, projectId, directories[i - 1], requests[k]);
          assert FaithfulIn(t, projectId, directories[i], requests[k]);
        }
      } else {
        assert FaithfulIn(t, projectId, directories[i], requests[i - 1]);
      }
    }
  }

  /** Along a chain in which every build creates at most `k` segments and every release can afford its
  consolidation, no release ever has more than 63 + k small segments. */
  lemma {:induction false} ChainStaysCompact(t: Tool, canonical: Bytes -> bool, projectId: Bytes,
                                             requests: seq<Request>, reports: seq<Result<PackReport>>,
                                             directories: seq<Directory>,
                                             created: seq<nat>, k: nat, i: nat)
    requires ToolSound(t) && Chain(t, canonical, projectId, requests, reports, directories, created)
    requires i < |directories|
    requires directories[0].snapshot == None && forall j :: 0 <= j < |created| ==> created[j] <= k
    requires forall j :: 0 <= j < |directories| && directories[j].snapshot.Some? ==>
              Affordable(directories[j].snapshot.value)
    ensures directories[i].snapshot.Some? ==>
              && ById(directories[i].snapshot.value.segments)
              && |SmallSet(directories[i].snapshot.value.segments)| <= 63 + k
  {
    hide ToolSound, AssetsOk, CarriedOver, AllFit, Compaction.SmallCount, ById, LibraryOk, BlockAt, SegmentNeeded;
    if i > 0 {
      ChainStaysCompact(t, canonical, projectId, requests, reports, directories, created, k, i - 1);
      var before, after := directories[i - 1], directories[i];
      assert ChainStep(t, canonical, projectId, before, after, requests[i - 1], reports[i - 1], created[i - 1]);
      if Moves(t, projectId, before, after, requests[i - 1], created[i - 1]) {
        assert before.snapshot.Some? ==> Affordable(before.snapshot.value);
        FewFragments(before.snapshot, after.snapshot.value, created[i - 1]);
      }
    }
  }

  ghost predicate Affordable(s: Snapshot) {
    |s.chunkIds| <= |s.blocks| && AllFit(s)
  }

  /** The release at any point of a chain from a fresh directory lies there in full. */
  lemma ReleaseInPlace(t: Tool, canonical: Bytes -> bool, projectId: Bytes, requests: seq<Request>,
                       reports: seq<Result<PackReport>>, directories: seq<Directory>, created: seq<nat>, i: nat)
    requires ToolSound(t) && Chain(t, canonical, projectId, requests, reports, directories, created)
    requires i < |directories|
    requires directories[0].snapshot == None && directories[i].snapshot.Some?
    ensures SnapshotOk(t, projectId, directories[i].data, directories[i].library, directories[i].snapshot.value)
  {
    hide ToolSound, SnapshotOk, AssetsOk, CarriedOver, ChainStep;
    AlwaysFaithful(t, canonical, projectId, requests, reports, directories, created, i);
    var k :| 0 <= k < i && FaithfulIn(t, projectId, directories[i], requests[k]);
  }

  /** Consolidation along a chain: whatever a build carries over from a release that could afford its consolidation was
  mostly live there, and where a build found nothing to do, at most half of the release and a mebibyte for each of its
  segments is stranded, as its report says. */
  lemma ChainReclaims(t: Tool, canonical: Bytes -> bool, projectId: Bytes, requests: seq<Request>,
                      reports: seq<Result<PackReport>>, directories: seq<Directory>, created: seq<nat>, i: nat)
    requires ToolSound(t) && Chain(t, canonical, projectId, requests, reports, directories, created) && i < |reports|
    requires directories[0].snapshot == None && directories[i].snapshot.Some?
    requires Affordable(directories[i].snapshot.value)
    ensures directories[i + 1].snapshot.Some?
    ensures var before, after := directories[i].snapshot.value, directories[i + 1].snapshot.value;
            after != before ==>
              forall k :: 0 <= k < |before.segments| && before.segments[k] in after.segments ==> MostlyLive(before, k)
    ensures reports[i].Ok? && !reports[i].value.changed ==>
              var s := directories[i + 1].snapshot.value;
              2 * reports[i].value.storage.stranded
                <= Storage.PayloadTotal(s.segments) + 2 * 1024 * 1024 * |s.segments|
  {
    hide ToolSound, SnapshotOk, AssetsOk, AllFit, MostlyLive, NotChosen, Storage.LedgerOk, StatsOf, ChosenOf;
    var before, after := directories[i], directories[i + 1];
    var s := before.snapshot.value;
    assert ChainStep(t, canonical, projectId, before, after, requests[i], reports[i], created[i]);
    ReleaseInPlace(t, canonical, projectId, requests, reports, directories, created, i);
    if after.snapshot != before.snapshot {
      forall k | 0 <= k < |s.segments| && s.segments[k] in after.snapshot.value.segments
        ensures MostlyLive(s, k)
      {
        assert s.segments[k] in s.segments;
        CarriedIsMostlyLive(t, projectId, before.data, before.library, s, k);
      }
    }
    if reports[i].Ok? && !reports[i].value.changed {
      NothingChosenStrandsLittle(t, projectId, before.data, before.library, s);
    }
  }
}
