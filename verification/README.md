# Hakutaku, modelled and proved in Dafny

Hakutaku packs a source tree into immutable, content-addressed segments and one signed snapshot, and a
runtime reads any byte range back. This project models four connected parts of it and two smaller ones, and
proves what they promise each other.

- **The publisher.** `Sources`, `SegmentStore`, `Placement`, `Rotation`, `Builds`, `Packing`, `Releases`, `Assets`,
  `Limits`, `Storage`, `Compaction`, `DevelopmentCaches` and `Publishing` follow one build from source bytes to a release
  in place: cutting, deduplication, reuse across releases, segment rotation, ordinals, consolidation, statistics, the
  development cache, staging, verification, commit and clean-up, with every cause for which it may be refused. `Chains`
  runs any number of builds, `Remembering` is what one build spares the next, and `Publication` is the commit protocol
  against power loss.
- **The reader.** `BlockStore`, `AssetReader` and `Sessions` are the package, its caches and buffers, read sessions,
  cursors and prefetching; `SharedCaches` is the same caches under any interleaving of threads.
- **The wire format.** `Wire`, `Records`, `Tables`, `Catalogs`, `CatalogRoundTrip`, `AcceptedCatalogs`, `Pages` and
  `PathIndex` are the records, the catalog, the pages and the path lookup. `ReadBack` shows that what the publisher
  writes is what the format accepts and the reader needs, `Printing` prints a snapshot, `Opening` opens, verifies and
  reads it, and `SmallRelease` is one complete release as an example.
- **The clock cache.** `ClockCaches` is the second-chance cache with its slots, index, vacancy list and hand.
- **The development cache file** (`BuildCacheFile`) and **the release planner** (`Comparing`, `Planner`).

Where the program updates state in place the model does: classes for the cache, the package, the read window, the
cursor, the build context and the output directory, loops where the program has loops, and each method tied by its
contract to functions of the old state about which the lemmas speak. Rust's owned vectors of structures are
sequences of values held in fields.

## Hypotheses

What is not modelled enters as a parameter, with these hypotheses and no others.

- `Sources.ToolSound`: names of chunks and segments and block digests do not collide; opening undoes sealing and
  adds 16 bytes; inflating undoes compressing; content-defined cutting is a tiling by non-empty chunks of at most
  512 KiB; classification by name gives a fixed layout a positive block length. `Sources.ToolSoundPossible` shows
  that these can be met together, giving up to 256 inputs names and digests of the widths of the format.
- `Printing.PressSound`: opening undoes sealing for pages too (`Pages.Lawful`), their digests do not collide
  (`Pages.DigestsDistinct`), and the rule for canonical paths refuses the empty path. The path hash is any function
  into 32 bits, total collision included. Each release has page keys of its own. `Printing.PressSoundPossible` is a
  witness with digests of 16 bytes for up to 256 inputs. `SmallRelease.OneFileRelease` meets all hypotheses,
  `NamesFit` included, with a release of one segment, one block and one file, whose request is not refusable.
- Names, digests and checksums may have any width; where the format has a fixed one (32 or 16 bytes) the model reports
  a wrong width as an error, which the program's types rule out. `Publisher.misfits` counts these errors.
- The listing of the input directory gives one file a canonical path, with its size as stamped
  (`DevelopmentCaches.SourcesListed`).
- Random uids are never drawn twice (`Chains.TapesFresh`); running out of draws is the error of the random source.
- Equal source fingerprints are equal structured inputs.
- With the development cache, equal stamps of one path mean equal content (`DevelopmentCaches.SourcesListed`); without
  it nothing is assumed of stamps.
- The compression level is an option of each build; inflating undoes compressing at any level.
- Storage may fail or answer wrongly at any access; `Package.faults` counts that. In a build any file operation may
  fail; `BuildContext.faults` and `Publisher.faults` count that. Theorems that promise success promise it where nothing
  is counted.

## Findings

- Publication has two windows, both between the renaming of `game.haku` and the synchronization of the output
  directory in `commit_snapshot`. First, the name `data` is created by the first build in that same directory and is not
  synchronized before; an uncut first build followed by a power loss may keep `game.haku` and lose `data` with every
  segment (`Publication.FirstReleaseLost`; exactly when: `Publication.RenameIsSafeExactlyWhen`). Second, if a build is
  cut off between the two, by a kill or by a failing synchronization, the next build may find nothing changed and clean
  up without synchronizing; a power loss can then bring back the old `game.haku`, whose segments are gone
  (`Publication.RevertedReleaseLost`; exactly when: `Publication.KeepIsSafeExactlyWhen`). With both conditions every
  run is recoverable (`Publication.EveryRunIsRecoverable`, an if-and-only-if), and builds that are not cut off leave
  only the first (`Publication.UncutRunsAreCareful`).
- A build that reports an error may nevertheless have replaced the release: the directory synchronization and the
  clean-up run after the renaming. `Publishing.Publisher.Build` states which two outcomes there are.
- `Catalog::parse` does not itself enforce the 64 MiB limit that the printer and the snapshot header enforce
  (`CatalogRoundTrip.OversizedAccepted`), so printing gives accepted bytes back exactly within that limit.
- A source file listed as empty is not opened while packing, so bytes it has come to hold meanwhile are missed: the
  asset is the file's bytes exactly when the listed length is positive or the file is still empty
  (`ReadBack.AssetIsFileExactlyWhen`, with the input `Packing.GrownFileMissed`). A strict build that changes the release
  refuses it on verification (`Publishing.Publisher.StageRelease`); an unchanged or a development build does not verify.
- A cache file may mark a modification time as unknown and write a time all the same. It is loaded, without that time,
  and saved again with zeros. Loading and saving again gives the bytes back exactly when no entry does this
  (`BuildCacheFile.ResavedExactlyWhen`, with the input `BuildCacheFile.UnknownTimeDropped`).

## Reading guide

The main results, in the order in which they build on each other: `ClockCaches.EveryRun`,
`CatalogRoundTrip.PrintOfParse`, `PathIndex.FindFile`, `Pages.FindsEveryBlock`, `BlockStore.Package.LoadBlock`,
`Sessions.RunHistory`, `SharedCaches.EveryScheduleIsSafe`, `Compaction.ChosenIsBest`, `Packing.AddFile`,
`Publishing.Publisher.Build`, `Chains.RunBuilds`, `Chains.EveryRequestPublished`, `Chains.AlwaysFaithful`,
`Chains.ChainReclaims`, `Publishing.Publisher.Read`, `Publication.EveryRunIsRecoverable`.

`dafny verify dfyconfig.toml` checks the whole project.

## Model

| member | source | states |
|---|---|---|
| `ClockCaches.Cache.Get` | crates/core/src/cache.rs:32-37 | a lookup answers exactly the finite map of cached values and marks only the slot it found as referenced |
| `ClockCaches.Cache.Insert` | crates/core/src/cache.rs:39-62 | the in-place insertion is the specified one: nothing for an inadmissible value, else room is made by second-chance eviction and the value takes a vacant or a new slot |
| `ClockCaches.Cache.Clear` | crates/core/src/cache.rs:64-73 | an empty cache of the same budget |
| `ClockCaches.Cache.EvictOne` | crates/core/src/cache.rs:75-97 | the in-place eviction loop frees the slot that the specified scan finds, in at most two turns of the hand |
| `ClockCaches.EvictOneExact` | crates/core/src/cache.rs:75-97 | a non-empty cache always yields a victim within two turns: the nearest unreferenced live slot after the hand, or the nearest live one if all are referenced; marks passed over are cleared, all other entries stay |
| `ClockCaches.InsertExact` | crates/core/src/cache.rs:39-62 | an admissible insertion ends with the key present, keeps a subset of the old contents, and evicts only while the value does not fit; an inadmissible one changes nothing |
| `ClockCaches.InsertKeepsValues` | crates/core/src/cache.rs:39-62 | insertion never changes a cached value and never breaks the invariant |
| `ClockCaches.TouchExact` | crates/core/src/cache.rs:32-37 | a hit changes neither contents nor byte count nor slots |
| `ClockCaches.TouchedSurvives` | crates/core/src/cache.rs:32-97 | the second chance: a value just looked up outlives the next eviction whenever another cached value is not marked |
| `ClockCaches.EveryRun` | crates/core/src/cache.rs:32-97 | after any sequence of operations: used bytes are the live bytes and within budget, slots equal the peak live count since the last clear, every value is one that was put under its key since then |
| `ClockCaches.StepKeepsPeak` | crates/core/src/cache.rs:39-62 | one operation keeps the slot count equal to the peak of live entries |
| `Records.SegmentRoundTrip` | crates/core/src/format.rs:412-440 | parsing an encoded segment record gives the record back |
| `Records.SegmentParseExact` | crates/core/src/format.rs:412-440 | an accepted segment record re-encodes to the same bytes |
| `Records.FileRoundTrip` | crates/core/src/format.rs:465-507 | an encoded file record parses back exactly when its layout rule holds |
| `Records.FileParseExact` | crates/core/src/format.rs:465-507 | an accepted file record re-encodes to the same bytes |
| `Records.SlotRoundTrip` | crates/core/src/format.rs:518-533 | path slots round-trip |
| `Records.SlotParseExact` | crates/core/src/format.rs:518-533 | path slots re-encode to the bytes they were read from |
| `Records.PageRoundTrip` | crates/core/src/format.rs:555-594 | an encoded page record parses back exactly when its lengths are canonical |
| `Records.PageParseExact` | crates/core/src/format.rs:555-594 | an accepted page record re-encodes to the same bytes |
| `Records.BlockRoundTrip` | crates/core/src/format.rs:617-660 | an encoded block reference parses back exactly when its lengths are canonical |
| `Records.BlockParseExact` | crates/core/src/format.rs:617-660 | an accepted block reference re-encodes to the same bytes |
| `Records.SegmentHeaderRoundTrip` | crates/core/src/format.rs:334-390 | a segment header parses back exactly when its file length is header plus payload |
| `Records.SegmentHeaderParseExact` | crates/core/src/format.rs:334-390 | an accepted segment header re-encodes to the same bytes |
| `Records.SnapshotHeaderRoundTrip` | crates/core/src/format.rs:227-313 | a snapshot header parses back exactly when it meets the parser's bounds |
| `Catalogs.Encode` | crates/core/src/format.rs:699-760 | the printer yields the specified image, or fails exactly on the counts and lengths it checks |
| `Catalogs.ValidateRecords` | crates/core/src/format.rs:870-963 | the validation loops accept exactly the catalogs that meet the cross-record conditions |
| `Catalogs.ValidatePages` | crates/core/src/format.rs:909-963 | the page loop with its running offset accepts exactly the canonical page directories |
| `Catalogs.Parse` | crates/core/src/format.rs:786-868 | the parser accepts exactly what the specification accepts, for any word size of at least 32 bits |
| `CatalogRoundTrip.ParseOfImage` | crates/core/src/format.rs:699-963 | a printed catalog parses back exactly when its data meets the cross-record conditions, which the printer does not check |
| `CatalogRoundTrip.DecodedOfView` | crates/core/src/format.rs:965-1071 | the accessors of a printed and parsed catalog give back the data it was printed from |
| `CatalogRoundTrip.PrintOfParse` | crates/core/src/format.rs:786-963 | an accepted byte string is, byte for byte, the image of what its accessors return; the printer reproduces it exactly when it is within the 64 MiB limit |
| `AcceptedCatalogs.AcceptedIsWhole` | crates/core/src/format.rs:786-963 | whatever bytes the parser accepts, on any word size: segments are a header of 128 bytes and their payload, files have canonical paths inside the pool and blocks that exist, slots are empty or lead to a file, and the pages lie end to end in the order of their nonces and hold each block record and each reuse record |
| `CatalogRoundTrip.WordSizeIrrelevant` | crates/core/src/format.rs:786-868 | acceptance and decoded records are the same for every word size that can hold the bytes: nothing wraps on a 32-bit target |
| `CatalogRoundTrip.OversizedAccepted` | crates/core/src/format.rs:786-868 | the parser itself accepts an image beyond the printer's 64 MiB limit |
| `CatalogRoundTrip.OversizedExists` | crates/core/src/format.rs:1301-1303 | such an image exists: an index of 2^23 empty slots |
| `PathIndex.EverySlotProbed` | crates/pack/src/packer.rs:1455-1466 | for a table whose size is a power of two, 32-bit wrapping probes reach every slot within one round |
| `PathIndex.BuildPathSlots` | crates/pack/src/packer.rs:1431-1472 | for any list of paths within limits and any hash, total collision included, every path is placed and the error for a full table is never reached |
| `PathIndex.SearchExact` | crates/core/src/format.rs:1075-1092 | probing finds the first index of a listed path and nothing for any other |
| `PathIndex.FindFile` | crates/core/src/format.rs:1075-1092 | lookup over catalog bytes is the exact finite map of the listed paths; only a non-canonical path is an error |
| `Pages.EncodeMapPage` | crates/core/src/format.rs:1100-1118 | the page printer appends header and records, or fails exactly beyond its capacity |
| `Pages.MapPageRead` | crates/core/src/format.rs:1120-1160 | each record of a printed map page reads back |
| `Pages.EncodeReusePage` | crates/core/src/format.rs:1164-1182 | the same for reuse pages |
| `Pages.ReusePageRead` | crates/core/src/format.rs:1184-1195 | a printed reuse page parses back to its names |
| `Pages.SealedOpens` | crates/pack/src/packer.rs:1381-1429 | a sealed page opens to its plaintext under its directory entry, with canonical lengths |
| `Pages.BuildPages` | crates/pack/src/packer.rs:1314-1379 | within the limits pagination succeeds exactly when every page's digest has its width; it yields map pages, then reuse pages, each sealed under its own ordinal at its running offset |
| `Pages.LoadsSealed` | crates/core/src/package.rs:624-655 | the runtime's page load returns the plaintext that was paginated |
| `Pages.FindsEveryBlock` | crates/core/src/package.rs:610-622 | the block lookup returns element i of the paginated list, for every i |
| `Pages.ReuseRecords` | crates/core/src/package.rs:574-602 | the packer-only reader gives back block references and chunk names, paired and in order |
| `Pages.DirectoryAccepted` | crates/core/src/format.rs:909-963 | the directory of any pagination passes the runtime's validation, and the nonce ordinals of one snapshot key (0 for the catalog, one per page) are pairwise distinct, as section 8.2.1 of NIST SP 800-38D requires |
| `Compaction.CountLive` | crates/pack/src/packer.rs:1261-1274 | the counting loop gives each segment its unique live bytes, each physical block once |
| `Compaction.TakeGreedily` | crates/pack/src/packer.rs:1292-1303 | the greedy loop selects exactly the candidates that fit together with all before them |
| `Compaction.CompactionSegments` | crates/pack/src/packer.rs:1254-1305 | the selection is the specified one, whose reasons Chains.ReasonToRewrite spells out, and fails exactly on ordinals out of range or references exceeding a payload |
| `Compaction.GreedyIsSelection` | crates/pack/src/packer.rs:1292-1303 | the running remainder and the closed form of the selection agree |
| `Compaction.SelectionWithinBudget` | crates/pack/src/packer.rs:1254-1305 | unique live plaintext of the selected segments is within the rewrite budget |
| `Compaction.SelectionOptimal` | crates/pack/src/packer.rs:1254-1305 | no set of candidates within the budget has more elements than the selection |
| `Compaction.ChosenIsBest` | crates/pack/src/packer.rs:1254-1305 | for every release: within 64 MiB, of maximum cardinality, all candidates if they fit |
| `Compaction.FirstsOfConsistent` | crates/pack/src/packer.rs:1263-1274 | for consistent records only the set of physical blocks matters |
| `Compaction.ChoiceIgnoresOrder` | crates/pack/src/packer.rs:1254-1305 | permuting or repeating consistent records changes neither acceptance nor the selection |
| `BlockStore.HandleCache.Get` | crates/core/src/package.rs:140-147 | a hit moves the handle to the recent end, a miss changes nothing |
| `BlockStore.HandleCache.Insert` | crates/core/src/package.rs:149-164 | adds at the recent end after dropping the oldest of a full cache; known names and a zero capacity change nothing |
| `BlockStore.HandleCache.Clear` | crates/core/src/package.rs:166-169 | forgets every handle |
| `BlockStore.BlockReader.PrepareCiphertext` | crates/core/src/package.rs:259-265 | the ciphertext buffer has the requested length, whatever was recycled into it |
| `BlockStore.BlockReader.Recycle` | crates/core/src/package.rs:280-288 | of the buffer at hand and the one handed back the larger is kept for the next block, a shared block changes nothing, and the segment handle stays |
| `BlockStore.Package.LoadMetadata` | crates/core/src/package.rs:624-655 | a page from cache or storage is the authentic page; failures come only from storage; a page that fits is kept, and a kept page is given without reading storage |
| `BlockStore.Package.FindReference` | crates/core/src/package.rs:610-622 | a block reference is the one the packer paginated; failures come only from storage; where the page is kept nothing is read |
| `BlockStore.Package.OpenSegment` | crates/core/src/package.rs:785-815 | an opened segment has, byte for byte, the header that the catalog expects; its handle is kept for later, and a kept handle is given without reading storage |
| `BlockStore.Package.SecondNormalAccess` | crates/core/src/package.rs:768-783 | admits a block exactly on its second access among the tracked ones, which are forgotten oldest first |
| `BlockStore.Package.CachedBlock` | crates/core/src/package.rs:672-688 | answers exactly when the block is in the cache of its class or in the prefetch cache, with the true plaintext: the hint hides nothing |
| `BlockStore.Package.ReadBlock` | crates/core/src/package.rs:690-722 | bytes that pass the signed digest open and decode to the true plaintext; failures come only from storage |
| `BlockStore.Package.SegmentHandle` | crates/core/src/package.rs:290-307 | the kept handle is used only for its own segment, and then nothing is read; otherwise the opened one is kept |
| `BlockStore.Package.DecodeBuffered` | crates/core/src/package.rs:1222-1242 | decoding into a recycled buffer returns exactly the decoded plaintext or an error, never stale bytes |
| `BlockStore.Package.Decompress` | crates/core/src/package.rs:1250-1263 | decompression overwrites a prefix of the buffer and leaves the rest as it was |
| `BlockStore.Package.LoadBlock` | crates/core/src/package.rs:662-736 | whatever the history and whatever storage answers, a successful load is the true plaintext, and without storage faults every load succeeds; a hot block that fits is cached afterwards, streaming and transient ones never enter the block cache and, like hot ones, leave the tracked accesses alone; a Normal block that no cache serves is cached on its second tracked access if it fits, and on its first is only tracked as the latest |
| `BlockStore.LoadThrice` | crates/core/src/package.rs:662-736 | once two Normal loads of a block that fits have succeeded, the next one succeeds, gives the true plaintext and reads nothing from storage |
| `BlockStore.Package.PrefetchBlock` | crates/core/src/package.rs:738-766 | after prefetching a block that fits, one of the caches has it; every cache stays true and the prefetch hint correct |
| `BlockStore.Package.Trim` | crates/core/src/package.rs:531-542 | all rebuildable state is released, the cached pages included, and the invariant kept |
| `AssetReader.LastStartCovers` | crates/core/src/package.rs:992-1029 | the last block that starts at or before an offset covers it |
| `AssetReader.QuotientCovers` | crates/core/src/package.rs:988-991 | for a fixed layout the quotient of the offset is the index of the covering block |
| `AssetReader.BlockWindow.SearchBlock` | crates/core/src/package.rs:992-1009 | binary search finds the covering block of a content-defined asset |
| `AssetReader.BlockWindow.ReferenceForOffset` | crates/core/src/package.rs:982-1029 | either layout yields the covering block; failures come only from storage |
| `AssetReader.KeptPart` | crates/core/src/package.rs:919-926 | the bytes kept for a block are its part of the asset |
| `AssetReader.BlockWindow.EnsureCovered` | crates/core/src/package.rs:889-917 | makes an offset covered by keeping, swapping or one load; a streaming load keeps the block that was current, and covered offsets load nothing |
| `AssetReader.BlockWindow.CopyFromCurrent` | crates/core/src/package.rs:918-930 | copies the asset's bytes and nothing else |
| `AssetReader.BlockWindow.Fill` | crates/core/src/package.rs:885-933 | the read loop fills exactly the requested bytes |
| `AssetReader.BlockWindow.ReadAt` | crates/core/src/package.rs:870-933 | a read returns the slice of the plaintext and leaves the rest of the destination alone; it fails only beyond the end or through storage, keeps the session sound when it fails, and loads nothing when the two kept blocks cover it |
| `Sessions.AssetCursor.constructor` | crates/core/src/package.rs:972-980 | a cursor starts at 0 with nothing kept |
| `Sessions.AssetCursor.Read` | crates/core/src/package.rs:1049-1072 | reads the slice at the position and advances by its length; a failed read leaves the position |
| `Sessions.AssetCursor.Seek` | crates/core/src/package.rs:1094-1112 | succeeds exactly for targets inside the asset, computed without wrap-around, and otherwise leaves the position |
| `Sessions.PrefetchRange` | crates/core/src/package.rs:942-969 | prefetching takes up blocks that cover the whole range, keeps package and session sound, and fails only beyond the end or through storage |
| `Sessions.FollowsOneMore` | crates/core/src/package.rs:1032-1112 | histories extend one operation at a time |
| `Sessions.Perform` | crates/core/src/package.rs:870-1112 | each operation answers what slicing allows at the cursor position |
| `Sessions.RunHistory` | crates/core/src/package.rs:870-1112 | any history of reads, cursor reads, seeks, prefetches and trims, with storage failing at will, answers as slicing the plaintext; without storage failures nothing fails |
| `Sessions.LoadTwo` | crates/core/src/package.rs:889-917 | a streaming session keeps the two blocks it loaded last |
| `Sessions.ReadWithinTwo` | crates/core/src/package.rs:870-933 | any further reads inside two kept blocks succeed and load nothing |
| `SharedCaches.VerifiedIsTrue` | crates/core/src/package.rs:690-722 | a verified load is the true plaintext |
| `SharedCaches.StepIsSafe` | crates/core/src/package.rs:531-783 | every step of a reader, prefetcher or trimmer keeps caches, thread and locks sound and leaves other threads' locks alone; a lock taken for one lookup is released before the next |
| `SharedCaches.SecondAccessAdmits` | crates/core/src/package.rs:724-783 | under concurrency, a read Normal block whose access is tracked is in the block cache two steps later if it fits; otherwise the cache stays and the block is tracked as the latest |
| `SharedCaches.NormalIsProbed` | crates/core/src/package.rs:724-735 | a Normal block that storage has delivered is probed, and no other |
| `SharedCaches.FoundIsNotRead` | crates/core/src/package.rs:662-688 | a load that finds its block in the block cache ends with the true plaintext and never reads storage |
| `SharedCaches.MovedIsSound` | crates/core/src/package.rs:531-783 | one step in a system of any number of threads keeps it sound |
| `SharedCaches.EveryScheduleIsSafe` | crates/core/src/package.rs:531-783 | in every interleaving each cached block and each answer is the true plaintext, and the hint is set whenever the prefetch cache has something and nobody holds its lock |
| `SharedCaches.NoDeadlock` | crates/core/src/package.rs:738-783 | while some thread has work left, some thread can move: the prefetch lock is the only one held across steps, and nothing done under it waits |
| `SharedCaches.SchedulesTerminate` | crates/core/src/package.rs:531-783 | every schedule of real moves is bounded by the work given to the threads |
| `Sources.FixedChunksTile` | crates/pack/src/packer.rs:574-605 | cutting into fixed blocks loses nothing; all blocks but the last are full |
| `Sources.ChunkingTiles` | crates/pack/src/packer.rs:574-638 | cutting a file, fixed or content-defined, loses nothing and yields no empty chunk |
| `Sources.FixedOffset` | crates/pack/src/packer.rs:583-601 | chunk j of a fixed layout starts at j block lengths |
| `Sources.DeferredExactlyWhen` | crates/pack/src/packer.rs:73-84 | for all options and paths: deferred if and only if some listed prefix is the path or is followed in it by a slash |
| `Sources.SiblingIsRequired` | crates/pack/src/packer.rs:73-84 | a sibling whose name merely begins with a deferred name is Required unless another prefix names it |
| `Sources.TargetExactlyWhen` | crates/pack/src/packer.rs:380-387 | a payload is within the target of its class if and only if it is within the configured one and within 64 MiB (Hot), 256 MiB (Normal) or 128 MiB (Transient) |
| `SegmentStore.HoldsOneMore` | crates/pack/src/packer.rs:1098-1149 | appending a sealed block keeps the payload equal to its blocks end to end, with ordinals from 0 |
| `SegmentStore.FinishedIsStored` | crates/pack/src/packer.rs:1151-1197 | a finished file is header plus payload, named by its content |
| `SegmentStore.DistinctUidsDistinctNames` | crates/pack/src/packer.rs:1057-1060 | segments with different random uids have different names |
| `SegmentStore.ReferenceCovers` | crates/pack/src/packer.rs:1098-1149 | a block reference covers exactly its sealed block inside the segment |
| `SegmentStore.ReferenceReads` | crates/core/src/package.rs:690-722 | where a reference leads, the digest matches and opening and decoding give the plaintext |
| `Placement.SegmentStarted` | crates/pack/src/packer.rs:760-776 | a new segment starts empty, with the only writer of its class |
| `Placement.BlockWritten` | crates/pack/src/packer.rs:671-698 | one more block for one writer disturbs no other segment |
| `Placement.SegmentFinished` | crates/pack/src/packer.rs:778-784 | finishing removes one writer and records its segment, which had no record before |
| `Placement.FinishedWithinClass` | crates/pack/src/packer.rs:662-681 | a finished segment of more than one block is within the size its kind of access allows |
| `Rotation.SegmentCount` | crates/pack/src/packer.rs:660-690 | a build has created at most one segment for each chunk, and at most 8 and twice its sealed bytes divided by the least target: a segment is closed only for a block that it has no room for |
| `Builds.BuildContext.TryReuseChunk` | crates/pack/src/packer.rs:706-752 | reuses a block exactly as ReuseOne says; the block then gives the named chunk, at the new offset, in a segment of the availability |
| `Builds.ReuseOneExact` | crates/pack/src/packer.rs:706-752 | a chunk is reused if and only if this build has a block of its name and length in its class, or the previous release has one in its availability, raw unless the policy allows compression; the block of this build is preferred, reuse counts one (saturating), and only the previous release brings a segment into use |
| `Builds.SealedStays` | crates/pack/src/packer.rs:640-752 | when a block takes the place of another in the table of this build, which it does only where that does not serve the chunk, it serves everything that the other served: so no chunk is sealed twice for one class and policy |
| `Builds.ReusedFromPast` | crates/pack/src/packer.rs:727-750 | a block reused across releases holds the chunk it is named for |
| `Builds.ReusedFromCurrent` | crates/pack/src/packer.rs:716-726 | so does a block reused within the build |
| `Builds.BuildContext.StartSegment` | crates/pack/src/packer.rs:760-776 | opens a segment for a class that has no writer; it fails only if creating its file does or the draws are used up |
| `Builds.BuildContext.FinishActiveSegment` | crates/pack/src/packer.rs:778-784 | closes one segment, stores its record once and keeps every other file; it fails only if writing it does or its length exceeds 64 bits: a file already there under that name is never another one |
| `Builds.BuildContext.WriteBlock` | crates/pack/src/packer.rs:1098-1149 | seals one block at the end of a segment within its target and describes it; it fails only if writing does or a length exceeds its field |
| `Builds.BuildContext.EnsureWriter` | crates/pack/src/packer.rs:662-681 | keeps the writer of the class, touching nothing, exactly if there is one and the block keeps it within the configured size and 64, 256 or 128 MiB by kind of access; else finishes it and starts another |
| `Builds.BuildContext.CompressBlock` | crates/pack/src/packer.rs:1474-1495 | compresses exactly under the automatic policy when more than 64 bytes are saved |
| `Builds.BuildContext.SealBlock` | crates/pack/src/packer.rs:660-690 | exactly one block more, in a segment of the chunk's class |
| `Builds.BuildContext.AddNewBlock` | crates/pack/src/packer.rs:640-699 | a chunk that cannot be reused is sealed into its class and becomes reusable |
| `Builds.BuildContext.AddChunk` | crates/pack/src/packer.rs:640-699 | adds exactly one block holding the chunk at its offset in its availability. A block of the previous release (same name, length and availability) or of this build (same name, length and class), raw unless the policy allows compression, is reused: nothing is written, no new block is counted, one reuse is. Without such a block the chunk is sealed, and from then on there is one. An error means a failed file operation or more chunks than the draws and fields allow |
| `Packing.ReadChunk` | crates/pack/src/packer.rs:1534-1545 | fills a buffer however few bytes each read delivers; short only at the end, and an error only for a file that cannot be read |
| `Packing.AddFixedFile` | crates/pack/src/packer.rs:574-605 | adds exactly the fixed chunks of a file whose length and stamp are unchanged |
| `Packing.AddContentDefinedFile` | crates/pack/src/packer.rs:607-638 | adds exactly the content-defined chunks |
| `Packing.CachedEntryUsable` | crates/pack/src/packer.rs:523-572 | a cached entry is usable exactly when stamp and class match, its chunks are contiguous to the file's length, and each could be reused now |
| `Packing.StillOffered` | crates/pack/src/packer.rs:523-572 | reusing one chunk takes no other away |
| `Packing.ReplayCached` | crates/pack/src/packer.rs:468-487 | replaying a usable entry never loses a block and adds the file's chunks |
| `Packing.ReplayableReplays` | crates/pack/src/packer.rs:523-572 | if each chunk can be reused now, all can be, one after the other |
| `Packing.ReplayEqualsPacking` | crates/pack/src/packer.rs:465-503 | replaying the development cache and packing the source end in the same build: blocks, names, fingerprint, counters and files |
| `Packing.AddFile` | crates/pack/src/packer.rs:438-521 | adds a file's path, chunks, record and fingerprint item; the outcome does not depend on where the chunks came from; an error means a failed file operation, a file that is not as it was listed and would have to be opened, or more than the draws and fields allow: a file that the development cache describes, with a block of the previous release for each chunk, need not be readable |
| `Releases.FinishActiveSegments` | crates/pack/src/packer.rs:786-798 | every started segment is finished, each once; an error means a failed file operation or a length beyond 64 bits |
| `Releases.NamesAreApart` | crates/pack/src/packer.rs:806-818 | no two segments of a release have one name |
| `Releases.ListSegments` | crates/pack/src/packer.rs:806-809 | lists exactly the earlier segments in use and the new ones, by ascending name |
| `Releases.AssignOrdinals` | crates/pack/src/packer.rs:810-818 | ordinals are the positions in that list, and fail exactly beyond 16 bits |
| `Releases.Remap` | crates/pack/src/packer.rs:819-833 | each locator becomes its segment's ordinal; an unknown segment is the only error |
| `Releases.HasOrdinal` | crates/pack/src/packer.rs:819-833 | the error for a missing segment is never reached |
| `Releases.RemappedBlock` | crates/pack/src/packer.rs:819-833 | remapping changes neither plaintext nor placement nor availability |
| `Releases.WriteSnapshot` | crates/pack/src/packer.rs:806-838 | the logical snapshot of a finished build: it fails only on sizes; otherwise everything the snapshot names is on disk, every listed segment is referenced, blocks are those of the build, and the storage statistics are exact |
| `Releases.StrandedCarriedOver` | crates/pack/src/packer.rs:990-1033 | stranded bytes lie only in segments carried over from the release before |
| `Releases.FullBuildStrandsNothing` | crates/pack/src/packer.rs:990-1033 | a build that reuses no earlier segment strands nothing |
| `Limits.TooLargeIsCrowded` | crates/pack/src/packer.rs:806-838 | a snapshot is refused only for more files, chunks, path bytes or segments than a release has room for, as the listing and the release before tell |
| `Limits.RoomForSnapshot` | crates/pack/src/packer.rs:838-866 | below these bounds the format has room for the finished build's snapshot, exactly if names and digests have their widths |
| `Storage.CollectUnique` | crates/pack/src/packer.rs:1003-1021 | one entry for each physical block; fails exactly on a block outside its segment or with two lengths |
| `Storage.StorageStatsOf` | crates/pack/src/packer.rs:990-1033 | gives exact sums, and fails exactly when the ledger is inconsistent or a total overflows |
| `Storage.Conservation` | crates/pack/src/packer.rs:990-1033 | for a release of the packer: retained = 128 per segment + referenced + stranded, stranded is exactly what no reference leads to, and failure is possible only if retained bytes exceed 64 bits |
| `Storage.NothingStranded` | crates/pack/src/packer.rs:990-1033 | if every block is referenced nothing is stranded |
| `Storage.StrandedIsDead` | crates/pack/src/packer.rs:990-1033 | the stranded bytes of a release are the dead bytes of its segments together |
| `Storage.BackedIsWellReferenced` | crates/pack/src/packer.rs:1282-1288 | consolidation's counts of a packer release never exceed a payload |
| `Assets.AssetAdded` | crates/pack/src/packer.rs:438-521 | one more file: its blocks follow those before and no earlier asset changes |
| `Assets.SameItem` | crates/pack/src/packer.rs:453-505 | equal fingerprint items mean the same path, content, chunks and availability |
| `Assets.SameFingerprint` | crates/pack/src/packer.rs:265-271 | a release whose fingerprint is that of the new sources contains exactly those |
| `Publishing.PackFiles` | crates/pack/src/packer.rs:241-259 | after the loop the build contains every source, in order; an error means a failed file operation, a file that is not as it was listed and is not spared being opened, or more than the draws and fields allow |
| `Publishing.LoadReuseIndex` | crates/pack/src/packer.rs:1208-1248 | offers every block outside the segments chosen for rewriting, under its chunk's name and its segment's availability, the first of several, and nothing else; for a packer release only reading the old pages can fail |
| `Publishing.OnOfferIsFound` | crates/pack/src/packer.rs:706-752 | whatever the previous release has outside the segments chosen for rewriting, under a name and availability and with an acceptable codec, is reused for that chunk |
| `Publishing.MissingInAreNew` | crates/pack/src/packer.rs:706-752 | blocks are sealed only for chunks that an incremental build does not find in the release before |
| `Publishing.FewAreSealed` | crates/pack/src/packer.rs:640-752 | a build has no more new blocks than there are different chunks, by name, class and policy, that are not found in the release before |
| `Printing.ReadReuse` | crates/core/src/package.rs:574-602 | reading the printed pages of a release back gives each of its blocks with the name of its chunk, in order |
| `DevelopmentCaches.CollectEntries` | crates/pack/src/packer.rs:1603-1643 | the development cache gets an entry for every file in order, with its path, stamp and class and its real chunks |
| `DevelopmentCaches.PrintEntries` | crates/pack/src/packer.rs:1603-1655 | the bytes for the cache file are the printed form of exactly these entries, under the project and the release |
| `DevelopmentCaches.SavedIsTrue` | crates/pack/src/build_cache.rs:41-217 | whatever release a saved file is later loaded for, it loads as true entries or not at all |
| `Publishing.Publisher.UpdateCache` | crates/pack/src/packer.rs:274-276 | a development build saves the entries of its files under the release's sequence; any other build, and one whose saving fails, leaves the cache file alone; whatever the file loads as stays true; saving fails only for a failed file operation, a name without its width, or counts and stamps beyond their fields |
| `DevelopmentCaches.TrueEntries` | crates/pack/src/packer.rs:523-536 | under honest stamps a saved entry describes the file it is used for |
| `Publishing.Publisher.LoadCache` | crates/pack/src/packer.rs:181-195 | gives exactly what the cache file holds for this project and this release, nothing where the file is absent, too large, damaged or of another release, and an error only where reading fails |
| `Publishing.RememberedIsSpared` | crates/pack/src/packer.rs:465-572 | a file whose stamp and class the development cache has, with all chunks on offer in the release, is not opened |
| `Remembering.UnchangedIsRemembered` | crates/pack/src/packer.rs:523-572 | a file of the release listed again with its stamp: its saved entry matches it, is contiguous, and all its chunks are on offer, if nothing is to be rewritten and its policy is automatic compression |
| `Remembering.UnchangedNeedNotBeOpened` | crates/pack/src/packer.rs:181-195 | after a development build whose cache file loads, the next one can pack every file that is listed as it was, whether or not it can be read |
| `Publishing.RunBuild` | crates/pack/src/packer.rs:208-259 | a build over the segments already there packs all sources and finishes all segments, adding files only |
| `Publishing.CleanedKeeps` | crates/pack/src/packer.rs:1717-1743 | cleaning keeps exactly the files that the release names |
| `Publishing.Publisher.CleanUp` | crates/pack/src/packer.rs:1717-1743 | removes files one after the other and may fail at any of them or at the synchronization, and in no other way: a named file is never removed, and success leaves exactly the named ones |
| `Publishing.Publisher.KeepRelease` | crates/pack/src/packer.rs:265-296 | an unchanged release already contains the sources and stays in place, with all its segments, whether or not saving the cache and cleaning up succeed; success removes every other segment file |
| `Publishing.Publisher.StageRelease` | crates/pack/src/packer.rs:298-325 | staging leaves the release in place alone; what it yields is printed in full, and in a strict build every asset has been read back over the printed files and equals the bytes of its source; it fails only for a failed file operation, a digest without its width, more than the format has room for, or a source that cannot be verified or listed in the cache |
| `Publishing.Publisher.LoadPrevious` | crates/pack/src/packer.rs:173-202 | opening the release in place and loading from it fails only by a file operation, and only if there is one; the cache entries taken over are true of the listed files, and reuse is offered exactly for an incremental build |
| `Publishing.Publisher.CommitRelease` | crates/pack/src/packer.rs:1665-1743 | before the renaming the old release stays untouched; from the renaming on the staged one is in place, whatever synchronization and clean-up report; it fails only by a file operation; success leaves exactly its segments |
| `Publishing.Publisher.ReplaceRelease` | crates/pack/src/packer.rs:298-340 | a new release carries over no segment chosen for rewriting, and gives every other segment a uid of this build |
| `Publishing.Publisher.NewRelease` | crates/pack/src/packer.rs:298-340 | renaming, synchronizing and cleaning up may each fail: before the renaming the old release stays untouched, from then on the new one is in place, complete and under its sequence, even where the build reports an error; success has exact statistics, and reused plus new blocks equal to the block count |
| `Publishing.OnlyOffered` | crates/pack/src/packer.rs:1208-1248 | no segment chosen for rewriting survives, and everything else that is not carried over is new |
| `Publishing.NextSequenceExactlyWhen` | crates/pack/src/packer.rs:202-210 | the sequence of a new release is the least positive one that respects the floor and exceeds the old one |
| `Publishing.Publisher.Build` | crates/pack/src/packer.rs:141-340 | one whole build, failing at any file operation: the release in place is the old one or contains exactly these sources in segments of their availability, under the next sequence, with all its segments on disk; success means the latter. It fails only if a file operation did, a name or digest lacks its width, or the request is refusable: options out of range, sequences exhausted, a file that would have to be opened and is not as listed, a file that cannot be verified or listed in the cache, or too much for the draws, the fields or the format. It is kept exactly when it is for the same sources and options and has nothing to rewrite; it reports no more new blocks than there are different chunks, by name, class and policy, that the release before does not offer to an incremental build; a full build strands nothing; a development build leaves a cache for exactly this release, a strict one that changes the release has compared every asset; options out of range are refused before anything changes |
| `Publishing.Publisher.Read` | crates/core/src/package.rs:467-476 | whatever is asked of the release in place, over its printed catalog: exactly the paths of the sources are found, and any history of reads, seeks, prefetches and trims answers as slicing the source's content; after a strict build that is the bytes of the file |
| `ReadBack.BlockIsAuthentic` | crates/core/src/package.rs:690-722 | the signed digest of a published block admits only what the packer wrote |
| `ReadBack.BlockIsInstalled` | crates/core/src/package.rs:785-815 | a published block lies where the reader looks, in a file with the header it expects |
| `ReadBack.PublishedIsSound` | crates/core/src/package.rs:574-722 | a published release meets everything the reader relies on |
| `ReadBack.PublishedTiles` | crates/core/src/package.rs:870-1029 | every asset of a published release tiles its source's content, so reading it by any history is slicing that content |
| `ReadBack.AssetIsFileExactlyWhen` | crates/pack/src/packer.rs:465-503 | the asset is the bytes that the file holds exactly when the file was listed with a positive length or is still empty |
| `Packing.GrownFileMissed` | crates/pack/src/packer.rs:465-503 | a file listed as empty that has grown since: nothing of it is packed |
| `ReadBack.AvailabilityIsolated` | crates/pack/src/packer.rs:73-84 | every block of an asset lies in a segment of the availability that the build's options give its path, which is Deferred if and only if a listed prefix is the path or is followed in it by a slash |
| `ReadBack.PublishedBlocksAccepted` | crates/core/src/format.rs:617-660 | the packer's references fit the page format |
| `ReadBack.PublishedCatalogAccepted` | crates/core/src/format.rs:870-963 | what the packer puts into a catalog meets every cross-record condition of the parser and of the path lookup |
| `Printing.CatalogTyped` | crates/core/src/format.rs:699-760 | every record of a published catalog fits its fields |
| `Printing.PrintSnapshot` | crates/pack/src/packer.rs:838-866 | printing path index, pages and catalog of a packer snapshot succeeds exactly when the format has room: counts within their limits and a catalog of at most 64 MiB; then the catalog parses back to its data, every path is placed in the index, and every block is on its page |
| `Opening.OpenPackage` | crates/core/src/package.rs:424-442 | the opened package reads the published release: its segments, its pages, its blocks |
| `Opening.FindAsset` | crates/core/src/package.rs:467-476 | parsing the printed catalog and probing its index finds exactly the listed paths, each with its own record; only a path that is not canonical is an error |
| `Opening.VerifyStaged` | crates/pack/src/packer.rs:1561-1601 | verification of a staged release passes only if storage gives every segment as it was written and, with its sources, only if every source, read again, is as it was packed; it fails only through storage or for a source that is not |
| `Opening.VerifySegments` | crates/core/src/package.rs:549-571 | hashing the segments passes exactly if storage gives every one as it was written |
| `Opening.ReadPublished` | crates/core/src/package.rs:467-476 | printed catalog, parse, path lookup and any history of reads, put together: the answers are slices of the source's content |
| `Chains.RunBuilds` | crates/pack/src/packer.rs:141-340 | over any chain of builds, full or incremental, with options changing freely and any file operation failing: each build keeps the release in place or replaces it by one that contains its own sources under the next sequence, and after a success the release contains the sources of that build, all its files lying in the directory as it is then; a build fails only for a failed file operation, a width or a refusable request |
| `Chains.EveryRequestPublished` | crates/pack/src/packer.rs:141-340 | along a chain in which no file operation fails and no width is wrong, every request that is not refusable succeeds, and the release in place then contains exactly its sources |
| `Chains.SequencesGrow` | crates/pack/src/packer.rs:202-210 | along a chain a release is replaced only by one of greater sequence, and never lost |
| `Chains.AlwaysFaithful` | crates/pack/src/packer.rs:141-340 | at any point of a chain, whatever failed before, the release in place contains exactly the sources of one of the requests, and its files lie in the directory |
| `Chains.ManySmallAllGo` | crates/pack/src/packer.rs:1275-1291 | with 64 small segments or more, and a budget that suffices, every small one is chosen |
| `Chains.ReasonToRewrite` | crates/pack/src/packer.rs:1275-1291 | for every release: a chosen segment has a mebibyte and at least half of its payload dead, counted from the referenced blocks, or is one of 64 or more of at most 64 KiB; and if the budget suffices, every such segment is chosen |
| `Chains.MostlyLiveIsSpared` | crates/pack/src/packer.rs:1275-1291 | a segment larger than 64 KiB with more than half its payload live, or less than a mebibyte dead, is never chosen |
| `Chains.CarriedIsMostlyLive` | crates/pack/src/packer.rs:1208-1305 | what is carried over from a release that can afford its consolidation was mostly live there |
| `Chains.NothingChosenStrandsLittle` | crates/pack/src/packer.rs:1254-1305 | a release with nothing to rewrite strands at most half its payload and a mebibyte for each segment |
| `Chains.FewFragments` | crates/pack/src/packer.rs:1208-1305 | a release has at most 63 small segments more than its build created |
| `Chains.ChainStaysCompact` | crates/pack/src/packer.rs:1208-1305 | along any such chain, failing builds included, no release exceeds 63 + k small segments |
| `Chains.ChainReclaims` | crates/pack/src/packer.rs:1208-1305 | along a chain: whatever a build carries over was mostly live, and where nothing changed the reported stranded bytes are at most half the payload and a mebibyte for each segment |
| `Publication.StepKeepsSafe` | crates/pack/src/packer.rs:1665-1743 | every operation of a build, every error, kill and power loss keeps the segments of what game.haku may revert to in the data directory, given care in keeping an unchanged release |
| `Publication.EveryRunIsRecoverable` | crates/pack/src/packer.rs:141-340 | in any number of builds interrupted at any points, a power loss leaves game.haku as it was when the running build began or as that build made it, and leaves that release complete exactly when the name of the data directory is settled |
| `Publication.CommitIncreases` | crates/pack/src/packer.rs:202-210 | a committed sequence exceeds that of every release game.haku could still revert to |
| `Publication.StagedRespectsFloor` | crates/pack/src/packer.rs:202-210 | the staged sequence respects the floor and exceeds the current one |
| `Publication.CompleteExactlyWhen` | crates/pack/src/packer.rs:150-157 | a power loss is harmless exactly when the name of the data directory is durable or nothing needs it |
| `Publication.RenameIsSafeExactlyWhen` | crates/pack/src/packer.rs:1665-1672 | renaming opens a window exactly when the data directory's name is not durable yet and the new release names a segment; synchronizing closes it |
| `Publication.KeepIsSafeExactlyWhen` | crates/pack/src/packer.rs:265-296 | cleaning up for an unchanged release is safe exactly when nothing game.haku may revert to needs a segment that the release in place does not, and the name of the data directory is settled |
| `Publication.SyncedOutputIsHarmless` | crates/pack/src/packer.rs:1665-1672 | once the output directory has been synchronized after the renaming both conditions hold |
| `Publication.UncutRunsAreCareful` | crates/pack/src/packer.rs:1665-1672 | builds that are never cut off between renaming and synchronizing leave one window only: the first renaming in a fresh output directory |
| `Publication.RevertedReleaseLost` | crates/pack/src/packer.rs:265-281 | a run in which the condition fails and a power loss leaves game.haku naming a deleted segment |
| `Publication.FirstReleaseLost` | crates/pack/src/packer.rs:150-157 | an uncut first build after whose renaming a power loss leaves game.haku without any of its segments |
| `BuildCacheFile.HeadRoundTrip` | crates/pack/src/build_cache.rs:94-116 | the fixed part of an entry round-trips |
| `BuildCacheFile.HeadParseExact` | crates/pack/src/build_cache.rs:94-116 | the 51 bytes of an accepted fixed part are exactly its raw field values in order; a time marked as unknown keeps the values written in its place, which the entry drops (see ResavedExactlyWhen) |
| `BuildCacheFile.ChunkTableRoundTrip` | crates/pack/src/build_cache.rs:125-134 | chunk tables round-trip |
| `BuildCacheFile.EntryRoundTrip` | crates/pack/src/build_cache.rs:93-159 | a printed entry is read back exactly when the parser's limits allow it |
| `BuildCacheFile.EntryParseExact` | crates/pack/src/build_cache.rs:93-159 | the bytes read for an entry are exactly its raw fields, its path and its chunk table, and lie wholly inside the checksummed payload; the chunk total stays within its limit |
| `BuildCacheFile.EntriesRoundTrip` | crates/pack/src/build_cache.rs:93-159 | the same for all entries, with the running chunk total |
| `BuildCacheFile.FileRoundTrip` | crates/pack/src/build_cache.rs:66-159 | a saved file parses for its own project and release only, exactly when it keeps the limits; the early count check refuses no such file |
| `BuildCacheFile.FileParseExact` | crates/pack/src/build_cache.rs:66-159 | an accepted file decomposes into header, raw entries and checksum with nothing before, between or after; of the entries that the program keeps, ResavedExactlyWhen speaks |
| `BuildCacheFile.ResavedExactlyWhen` | crates/pack/src/build_cache.rs:66-217 | saving the entries of an accepted file again, in file order, never fails, and reproduces the file if and only if every entry whose modification time is marked unknown has zero seconds and nanoseconds |
| `BuildCacheFile.UnknownTimeDropped` | crates/pack/src/build_cache.rs:96-132 | the input: a file with one entry of unknown modification time and one second written in its place is loaded, and saving it again gives other bytes |
| `BuildCacheFile.ReadEntry` | crates/pack/src/build_cache.rs:93-134 | reading one entry is the specified parse |
| `BuildCacheFile.ReadChunks` | crates/pack/src/build_cache.rs:125-134 | the chunk loop reads the whole table |
| `BuildCacheFile.ParseFile` | crates/pack/src/build_cache.rs:66-159 | the parser loop fills exactly the specified map, or refuses |
| `BuildCacheFile.SaveFile` | crates/pack/src/build_cache.rs:162-209 | the printer appends exactly the specified bytes, or refuses exactly what its counts cannot express |
| `BuildCacheFile.SavedIsLoaded` | crates/pack/src/build_cache.rs:41-217 | what was saved is loaded, path by path, and nothing else, for the same project and release and exactly within the limits of loading, the 256 MiB of the file included |
| `BuildCacheFile.LoadFile` | crates/pack/src/build_cache.rs:41-62 | an absent file, one beyond 256 MiB and one the parser refuses give no cache; any other gives exactly its entries |
| `Comparing.ReadPiece` | crates/pack/src/packer.rs:1534-1545 | a piece read from a cursor is the next slice of the asset |
| `Comparing.AssetMatchesSource` | crates/pack/src/planner.rs:223-244 | chunked comparison decides equality of the asset with the source's bytes; it fails only on a file that is no longer as listed, or through storage |
| `Comparing.VerifyStagedAsset` | crates/pack/src/packer.rs:1582-1599 | verification of a staged asset passes exactly when it is the whole source, storage and stamps permitting |
| `Planner.PlanOne` | crates/pack/src/planner.rs:101-132 | one source is unchanged exactly when its bytes agree with the asset |
| `Planner.PlanDirectory` | crates/pack/src/planner.rs:62-146 | lists each path of sources and release once in order, each with its exact relation, and sums exactly; before the first release and without incremental mode it compares with nothing and fails only if the listed bytes exceed 64 bits; else it fails only there, on a source that is no longer as listed, or through storage |
| `Planner.FreshPlanAddsAll` | crates/pack/src/planner.rs:104-124 | compared with nothing every source is an addition and every byte is new |
| `Planner.AddRemoved` | crates/pack/src/planner.rs:134-138 | exactly the assets without a source are listed as removed |
| `Planner.SortByPath` | crates/pack/src/planner.rs:139-139 | sorting keeps the assets and orders their paths strictly |
| `Planner.ExactIsUnique` | crates/pack/src/planner.rs:62-146 | there is only one exact plan |
| `Planner.PlanAfterPack` | crates/pack/src/planner.rs:158-221 | the metadata-only plan succeeds exactly when inventory and metadata agree |
| `Planner.MetadataPlanIsExact` | crates/pack/src/planner.rs:150-221 | for a release packed from these sources the metadata-only plan is the exact plan |
| `Planner.PackedReleaseIsKnown` | crates/pack/src/planner.rs:150-157 | a release that contains the sources meets all that the planner asks of one: its listing describes them, its assets read as their content, it was packed from them |
| `Planner.PlanAfterPackIsExact` | crates/pack/src/planner.rs:150-221 | right after packing the metadata-only plan succeeds and is what the full comparison would give |

## Left out

- Cache budgets equal to the largest machine word: the saturating comparison of the clock cache then differs from the
  exact one, so budgets are taken to be smaller.
- Error texts and kinds of the catalog and page parsers: acceptance is exact, refusals are not told apart.
- The bit mask of the path index is written as a remainder by the table size, which is a power of two.
- The snapshot header's place in the file, compression and encryption of the catalog and the signature: opening a
  snapshot starts from its catalog bytes and its pages.
- Opening and checking the old release at the start of a build: it may fail, otherwise its content is taken as published;
  its reuse pages are read as printed (`Printing.ReadReuse`), and reading them may fail.
- Classification by file extension, walking the input directory and the check for key material: a parameter of `Sources`.
- Packing.AddFile: progress reports and the running byte total are not modelled.
- Windows durability, where synchronizing a directory does nothing, the recovery of `game.haku.previous`, and removal of
  stale locks by hand; builds are taken one at a time.
- Publication.EveryRunIsRecoverable: files other than `game.haku`, its staged copy, `data` and the segments are not on the
  modelled disk, and the output directory's own name is taken to be durable.
- Publishing.Publisher.Build: the early error for input sizes that together exceed 64 bits is not modelled; such input
  is refusable (`Assets.Unpackable`). `Publishing.Refusable` is what may refuse a request, not what does: its bounds on
  segments and sizes count each chunk as sealed, deduplicated or not, and are computed before the build.
- Interleavings within one lock-protected section, and the page and handle caches under concurrency: each of their
  accesses is one section of its own, with the same invariants as in `BlockStore`.
- SharedCaches.EveryScheduleIsSafe: tasks are single blocks; ranges and reads are sequences of such tasks.
- Encryption, signatures, hashing, zstd, FastCDC and randomness themselves, derivation of keys, and the layout of the
  authenticated data.
- Byte-level injectivity of the fingerprint's preimage.
- The count of new blocks in the report of an unchanged build, which the program sets to 0.
- Details of canonical paths (reserved device names, control characters): an opaque predicate that refuses the empty path.
- Targets other than Unix, where the development cache stores device and inode as zero.
- GUI, command line, extraction, identity files and benchmarks.
