/** What a development build spares the next one: files that have not changed need not be opened again. */
module Remembering {
  import opened Basics
  import opened Records
  import opened BlockStore
  import opened Sources
  import opened SegmentStore
  import opened Placement
  import opened Builds
  import opened Packing
  import opened Releases
  import opened Assets
  import opened DevelopmentCaches
  import opened Printing
  import opened Pages
  import opened Publishing
  import opened Tables
  import BuildCacheFile

  /** The list of a file's chunks runs through the file without gap. */
  lemma {:induction false} ListIsContiguous(t: Tool, chunks: seq<Bytes>, k: nat)
    requires k <= |chunks| && |Join(chunks)| < U64_LIMIT && forall j :: 0 <= j < |chunks| ==> |chunks[j]| > 0
    ensures Contiguous(ChunkList(t, chunks)[k..], OffsetOf(chunks, k), |Join(chunks)|)
    decreases |chunks| - k
  {
    hide OffsetOf, Join;
    if k < |chunks| {
      ChunkPlace(chunks, k);
      ListIsContiguous(t, chunks, k + 1);
      assert ChunkList(t, chunks)[k..][1..] == ChunkList(t, chunks)[k + 1..];
    } else {
      assert ChunkList(t, chunks)[k..] == [];
      JoinedLength(chunks);
    }
  }

  lemma JoinedLength(chunks: seq<Bytes>)
    ensures OffsetOf(chunks, 0) == 0 && OffsetOf(chunks, |chunks|) == |Join(chunks)|
  {
    assert chunks[..|chunks|] == chunks && chunks[..0] == [];
  }

  /** Where something is on offer there is a first one. */
  lemma {:induction false} FirstOfOffers(s: Snapshot, chosen: set<nat>, key: (Bytes, Availability), n: nat)
    returns (m: nat)
    requires |s.chunkIds| == |s.blocks| && Offers(s, chosen, key, n)
    ensures FirstOffered(s, chosen, key, m)
  {
    hide Offers;
    if k: nat :| k < n && Offers(s, chosen, key, k) {
      m := FirstOfOffers(s, chosen, key, k);
    } else {
      m := n;
    }
  }

  /** Each chunk of a file that the release contains is on offer in it, unless something is to be rewritten. */
  lemma ChunkIsOnOffer(t: Tool, projectId: Bytes, data: map<Bytes, Bytes>, library: map<Bytes, Manifest>, s: Snapshot,
                       options: Options, sources: seq<SourceFile>, i: nat, j: nat)
    requires ToolSound(t) && ReleaseHolds(t, projectId, data, library, s, options, sources) && ChosenOf(s) == {}
    requires i < |sources| && j < |ChunksOf(t, sources[i])|
    ensures OnOffer(s, t.hash(ChunksOf(t, sources[i])[j]), options.AvailabilityOf(sources[i].path), Auto)
  {
    hide ToolSound, ChosenOf, ChunksOf, LibraryOk, ById, SegmentNeeded, Located, OffsetOf, RecordOf;
    var lines, chunks, key := SnapshotLines(s, library), ChunksOf(t, sources[i]),
                              (t.hash(ChunksOf(t, sources[i])[j]), options.AvailabilityOf(sources[i].path));
    assert AssetAt(t, options, s.files, s.paths, s.pathPool, sources[i], lines, i);
    var n := s.files[i].firstBlock + j;
    assert lines[n] == Line(OffsetOf(chunks, j), key.1, chunks[j]);
    assert BlockAt(t, s, library, n);
    assert Offers(s, {}, key, n);
    var m := FirstOfOffers(s, {}, key, n);
  }

  /** A file of the release, listed again with the stamp it had, need not be opened: its entry still matches it, and all
  its chunks are on offer. */
  lemma UnchangedIsRemembered(t: Tool, projectId: Bytes, data: map<Bytes, Bytes>, library: map<Bytes, Manifest>,
                              s: Snapshot, options: Options, sources: seq<SourceFile>,
                              saved: seq<(Bytes, CachedEntry)>, entries: CacheEntries, i: nat)
    requires ToolSound(t) && ReleaseHolds(t, projectId, data, library, s, options, sources) && ChosenOf(s) == {}
    requires EntriesDescribe(t, options, sources, saved) && BuildCacheFile.MapHas(entries, saved)
    requires i < |sources| && sources[i].len > 0 && Classify(t, sources[i]).compression.Auto? && options.incremental
    ensures Remembered(t, options, Some(s), entries, sources[i])
  {
    EntryListed(t, options, sources, saved, entries, i);
    FileLength(t, projectId, data, library, s, options, sources, i);
    ChunksOfTile(t, sources[i]);
    hide ToolSound, ChosenOf, ChunksOf, ReleaseHolds, OnOffer, EntryMatches, Contiguous, ChunkList, EntriesDescribe,
         BuildCacheFile.MapHas, Classify;
    var source, chunks := sources[i], ChunksOf(t, sources[i]);
    ListIsContiguous(t, chunks, 0);
    JoinedLength(chunks);
    assert ChunkList(t, chunks)[0..] == ChunkList(t, chunks);
    AllOffered(t, projectId, data, library, s, options, sources, i);
  }

  lemma AllOffered(t: Tool, projectId: Bytes, data: map<Bytes, Bytes>, library: map<Bytes, Manifest>, s: Snapshot,
                   options: Options, sources: seq<SourceFile>, i: nat)
    requires ToolSound(t) && ReleaseHolds(t, projectId, data, library, s, options, sources) && ChosenOf(s) == {}
    requires i < |sources|
    ensures |s.chunkIds| == |s.blocks|
    ensures AllOnOffer(s, ChunkList(t, ChunksOf(t, sources[i])), options.AvailabilityOf(sources[i].path), Auto)
  {
    hide ToolSound, ChosenOf, ChunksOf, AssetsOk, OnOffer, LibraryOk, BlockAt, SegmentNeeded;
    var all := ChunkList(t, ChunksOf(t, sources[i]));
    forall j | 0 <= j < |all|
      ensures OnOffer(s, all[j].chunkId, options.AvailabilityOf(sources[i].path), Auto)
    {
      ChunkIsOnOffer(t, projectId, data, library, s, options, sources, i, j);
    }
  }

  lemma FileLength(t: Tool, projectId: Bytes, data: map<Bytes, Bytes>, library: map<Bytes, Manifest>, s: Snapshot,
                   options: Options, sources: seq<SourceFile>, i: nat)
    requires ToolSound(t) && ReleaseHolds(t, projectId, data, library, s, options, sources) && i < |sources|
    ensures |ContentOf(sources[i])| == sources[i].len < U64_LIMIT
  {
    hide ToolSound, SnapshotOk, ChunksOf;
    assert AssetAt(t, options, s.files, s.paths, s.pathPool, sources[i], SnapshotLines(s, library), i);
  }

  lemma EntryListed(t: Tool, options: Options, sources: seq<SourceFile>, saved: seq<(Bytes, CachedEntry)>,
                    entries: CacheEntries, i: nat)
    requires ToolSound(t) && EntriesDescribe(t, options, sources, saved) && BuildCacheFile.MapHas(entries, saved)
    requires i < |sources| && sources[i].len > 0
    ensures sources[i].path in entries && EntryMatches(t, options, sources[i], entries[sources[i].path])
    ensures entries[sources[i].path].chunks == ChunkList(t, ChunksOf(t, sources[i]))
  {
    assert EntryDescribes(t, options, sources[i], saved[i]);
    assert StyleOf(saved[i].1) == Classify(t, sources[i]);
  }

  /** The file with the same listing, whether or not it can be read. */
  predicate ListedAlike(a: SourceFile, b: SourceFile) {
    a.path == b.path && a.len == b.len && a.stamp == b.stamp
  }

  /** After a development build whose cache file loads, and which leaves nothing to rewrite, the next one opens no file
  that is listed as it was: each can be packed whether or not it can be read. */
  lemma UnchangedNeedNotBeOpened(p: Publisher, options: Options, sources: seq<SourceFile>, again: seq<SourceFile>,
                                 i: nat)
    requires p.Valid() && p.Contains(options, sources) && ChosenOf(p.snapshot.value) == {}
    requires p.Saved(options, sources, p.snapshot.value.sequence) && options.developmentCache && options.incremental
    requires BuildCacheFile.Loaded(p.cacheFile.value, p.projectId, p.snapshot.value.sequence, p.tool.hash,
                                   p.canonical).Some?
    requires i < |sources| && i < |again| && ListedAlike(again[i], sources[i])
    requires Classify(p.tool, sources[i]).compression.Auto?
    ensures var entries := EntriesIn(p.tool, p.projectId, p.canonical, p.snapshot, p.cacheFile, options);
            FilePackable(again[i], RememberedFiles(p.tool, options, p.snapshot, entries, again))
  {
    hide ToolSound, SnapshotOk, AssetsOk, PrintedOk, FileTrue, EntriesDescribe, ChosenOf, Classify, DigestsDistinct,
         Lawful, BuildCacheFile.Loaded, BuildCacheFile.MapOf, BuildCacheFile.MapHas, BuildCacheFile.FileFits,
         BuildCacheFile.FileBytes, BuildCacheFile.Payload, BuildCacheFile.Reloadable, Publisher.PathsProper,
         Fingerprint, Remembered, Packable, AllOnOffer, NamedByContent;
    var s, t := p.snapshot.value, p.tool;
    assert PressSound(p.PressFor(0));
    var saved :| SavedAs(t, options, p.projectId, s.sequence, sources, p.cacheFile.value, saved);
    BuildCacheFile.SavedIsLoaded(p.projectId, s.sequence, saved, t.hash, p.canonical, p.projectId, s.sequence);
    var entries := EntriesIn(t, p.projectId, p.canonical, p.snapshot, p.cacheFile, options);
    PathFits(t, p.projectId, p.data, p.library, s, options, sources, i);
    if sources[i].len > 0 {
      UnchangedIsRemembered(t, p.projectId, p.data, p.library, s, options, sources, saved, entries, i);
      AlikeIsRemembered(t, options, p.snapshot, entries, sources[i], again[i]);
    } else {
      EmptyIsPackable(again[i]);
    }
  }

  lemma AlikeIsRemembered(t: Tool, options: Options, before: Option<Snapshot>, entries: CacheEntries, a: SourceFile,
                          b: SourceFile)
    requires ListedAlike(a, b) && Remembered(t, options, before, entries, a)
    ensures Remembered(t, options, before, entries, b)
  {
    hide AllOnOffer, Contiguous;
  }

  lemma EmptyIsPackable(source: SourceFile)
    requires source.len == 0
    ensures Packable(source)
  {
  }

  lemma PathFits(t: Tool, projectId: Bytes, data: map<Bytes, Bytes>, library: map<Bytes, Manifest>, s: Snapshot,
                 options: Options, sources: seq<SourceFile>, i: nat)
    requires ToolSound(t) && ReleaseHolds(t, projectId, data, library, s, options, sources) && i < |sources|
    ensures |sources[i].path| < U16_LIMIT
  {
    hide ToolSound, SnapshotOk, ChunksOf;
    assert AssetAt(t, options, s.files, s.paths, s.pathPool, sources[i], SnapshotLines(s, library), i);
  }
}
