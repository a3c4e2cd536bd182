# Verified model of the tracker streaming core

Tracker modules are cut into a skeleton and sample PCM, chunked by content, hashed into a block DAG, and
rebuilt byte for byte from untrusted peers; the web and desktop clients play a module while its samples
still arrive. This project models that machinery in Dafny and proves what it is for.

- **Repack codec** (`Cdc`, `CdcLaws`, `SampleTransform`, `TransformLaws`, `SampleMeaning`, `Spans`, `Skeleton`,
  `Recipe`, `SkeletonLaws`, `SkeletonHeaders`, `Blocks`, `Regions`, `Repack`, `Rebuild`, `DesktopRebuild`, `RepackV1`,
  `BuildV2`): the builders of
  all roots, and the readers of v1, v3 and v4 ones. Any getter at all, honest or not, leads a verifying web reader of a
  v1 or v3 root to failure or to the original file; of a v4 root too when no FLAC leaf holds a partial frame; and the
  desktop reader exactly on the shapes of sample where its transform cannot be led astray.
- **Seek planner and fence** (`Seek`, `FenceCoverage`, `FenceExact`, `TimingLaws`, `Plan`, `PlanLaws`, `SeekTime`,
  `ClientFence`, `Stream`): the bake's song simulation, the plan it yields, pruning, the client's fence and the delivery
  schedule. Checkpoints and required sets hold exactly what can sound. When the fence lets an order start, a streamed
  slot that can sound up to the end of the next checkpoint's span is in, exactly when no later streamed slot shares its
  offset. Orders start when the rows before them, at the speed and tempo last set, have been played.
- **Formats** (`Formats`, `ModTables`, `ModPacking`, `ItSlots`, `ItTables`, `ItHeaders`, `ItPacking`) **and whole files**
  (`BuiltFence`, `ModFence`, `ItBake`, `ItRebuild`, `ItOverlap`): the sample locators and planners of ProTracker and
  Impulse Tracker files, read back from what is written; and what comes of such a file when it is located, simulated,
  built, streamed and rebuilt.
- **Catalog** (`PageLru`, `Catalog`, `CatalogVfs`, `WebScan` for the web; `ReadAhead`, `CatalogFiles` for the desktop): two
  page caches with different recency rules, read-ahead, cancellation, and reads as slices of a flat file.
- **Playlist relay** (`Playlist`, `PlaylistLaws`, `Envelope`): the bounded newest-wins store, its poll cursor, and the
  gossip envelope.
- **Bake pool** (`BakePools`, `Ingest`): workers, crashes, the semaphore around the pool and the mutex behind it.
- `Basics`, `Sequences`, `Sorting`, `Buffers` hold shared definitions.

Where the program changes state step by step, so do the methods here; each is proved against a function or
relation of the inputs or the old state, and the laws are proved about those. Block hashing, node encoding
and FLAC are function parameters with the laws the program relies on: no two byte strings share a hash, a node
decodes to what was encoded (with times that survive the encoding), and FLAC gives back the PCM it was given exactly
when that is of whole frames. What other queries, peers, workers and the network do is an argument of the methods,
left arbitrary within what they can do.

Findings, each with its exact condition:

- Two slots at one offset: the plan knows the later one only, so a slot is covered exactly when no later
  streamed slot shares its offset (`SlotCoveredIffLastAtOffset`; `EarlierSlotIsNotRequired` has a song and slots where
  one does). Module files never share offsets.
- A v2 compressed slot whose header lies in a zeroed span loses what was written there. What a client assembles is the
  skeleton that was built exactly when each header byte inside a zero span is last written as zero (`V2SkeletonIff`, on
  the file and the slots). A slot is streamed only when the plan covers it and streaming saves 128 KiB at first playback;
  `ItOverlap.HeaderInSpanIsLost` has an Impulse Tracker file of every size from 262362 bytes up that passes both and loses
  the address, whatever PCM is dumped.
- `applyEnc` and `apply_enc` are documented as in lockstep. They agree on every mask and buffer of a length exactly when
  there are not two channels, or the length is of whole frames, or it is a single byte of a 16-bit sample
  (`RustAgreesIff`). For given slots the desktop reader gives back every file exactly when each slot is not stereo, or of
  whole frames, or a single byte, or three bytes of 16-bit stereo (`DesktopRebuildsIff`, the last two because the builder
  then never picks a splitting mask). Of Impulse Tracker samples only one cut short by the end of the file can be of
  another shape (`UnsafeIsCutShort`), and then some file with the same slots is lost (`ItRebuildsIff`);
  `ItRebuild.DesktopLosesThreeBytes` has one of 291 bytes. ProTracker files always come back (`BuildModule`).
- Given that FLAC returns whole frames and nothing else, which is assumed of the encoder here and not proved, a v4 root
  keeps a sample's PCM exactly when FLAC is no smaller or the PCM is of whole frames (`Repack.AddSample`).
- Upcoming samples precede passed ones exactly while no checkpoint order exceeds 10^9 + 1.
- With the playhead between two checkpoints, a sample the fence waits for can be fetched after one it does not wait
  for. `FenceSampleFirstIff` says exactly when: the other is needed again and the awaited one is not needed before it.
- A desktop read across two chunks can fail with a chunk missing after its own fetch: probing does not make a chunk
  recent, so the fetched one can push it out. `ReadFindsItsChunks` says exactly when; reads inside one chunk never fail so.
- The web scheduler is documented as a port of the desktop's read-ahead. It asks for the window on every read, also
  when the page is already there, so a cold scan of n pages waits for min(n, max(5, pages left - 15)) batches
  (`WebScanWaves`): one a page until the window meets the end of the file. The desktop's waits for min(n, 4) +
  ceil(max(0, n - 4) / 16) (`ScanWaves`).
- The envelope decodes length prefixes that are not the shortest; a message is the encoding of its parts exactly when
  its three prefixes are; `LongPrefixDecodes` is a frame where they are not.
- The Impulse Tracker planner's own walk, which keeps no channel latches and skips marker orders, computes the tables of
  the common simulation on every file (`ItSeekTables`).
- The planner's segment-0 fallback never fires on tables the simulation made (`OpeningFallbackIsIdle`).

## Model

| member | source | states |
|---|---|---|
| Cdc.CdcChunks | packages/repack/src/cdc.ts:31-57 | The generator's loop yields the chunk sequence `Chunks`, whose laws follow. |
| CdcLaws.ChunksConcat | packages/repack/src/cdc.ts:31-57 | The chunks of a buffer concatenate to it. |
| CdcLaws.ChunkLengths | packages/repack/src/cdc.ts:39-53 | No chunk is empty or over max; every chunk but the last exceeds min (or is a full max). |
| CdcLaws.SuffixAtCut | packages/repack/src/cdc.ts:38-56 | From any cut on, the chunks are those of the remaining bytes taken alone. |
| CdcLaws.SharedCutSharesTheRest | packages/repack/src/cdc.ts:38-56 | Two files with a common tail chunk it alike from any shared cut on. |
| CdcLaws.AppendKeepsAllButLast | packages/repack/src/cdc.ts:38-56 | Appending bytes keeps every chunk but the last. |
| CdcLaws.CutTest | packages/repack/src/cdc.ts:33-48 | For an average between 2^k and 2^(k+1) a cut needs the low k + 2 bits of the hash zero below it and the low k - 2 from it on. |
| CdcLaws.HashIsGearSum | packages/repack/src/cdc.ts:46 | The hash is the sum of the bytes' gear values, each doubled once per later byte, in 32 bits. |
| CdcLaws.GearStarts | packages/repack/src/cdc.ts:20-28 | The first entries of the gear table. |
| CdcLaws.ChunkEndsAtFirstCut | packages/repack/src/cdc.ts:38-53 | A chunk ends with the first byte past the minimum where the test passes, or at its limit. |
| CdcLaws.LowBitsAreLocal | packages/repack/src/cdc.ts:46-48 | The low k bits of the gear hash depend on the last k bytes scanned only. |
| CdcLaws.StrictCutIsLocal | packages/repack/src/cdc.ts:33-51 | A cut by the strict mask is decided by the bytes that fill the mask, whatever came before. |
| CdcLaws.StrictCutResyncs | packages/repack/src/cdc.ts:31-57 | Two files that reach the same strict window cut there and chunk alike from there on. |
| CdcLaws.LooseCutIsLocal | packages/repack/src/cdc.ts:33-51 | Past the average size a cut by the loose mask is decided by the bytes that fill that mask, either way. |
| CdcLaws.LooseCutResyncs | packages/repack/src/cdc.ts:31-57 | Such a cut resynchronises two files in the same way. |
| SampleTransform.ApplyEnc | packages/repack/src/dag.ts:634-675 | De-interleave, sign flip and delta, in place and loop by loop, on every length including partial frames. |
| SampleTransform.FlipIsXor | packages/repack/src/dag.ts:646-649 | The sign flip as used here is exclusive-or with 0x80. |
| TransformLaws.EncIsBijective | packages/repack/src/dag.ts:619-675 | Each mask is a bijection on whole-frame buffers, 8 or 16 bit, mono or stereo, with an explicit inverse. |
| SampleMeaning.EncMeans | packages/repack/src/dag.ts:634-675 | On whole frames of any samples: each is written where its channel goes, offset by half the range and less its predecessor, as the mask says. |
| SampleMeaning.WrittenIsStreamed | packages/repack/src/dag.ts:685-743 | A slot whose samples the file holds in any of the eight ways is streamed, with that mask or an earlier one. |
| SampleMeaning.OffsetBinaryIsStreamed | packages/repack/src/dag.ts:646-649 | In particular samples in offset binary, 8 or 16 bit, with mask 0 or 1. |
| TransformLaws.ApplyEncDesktop | apps/desktop/src-tauri/src/ipfs.rs:381-439 | The desktop transform, stage by stage, with its own guard on the split. |
| TransformLaws.RustAgreesOnWholeFrames | apps/desktop/src-tauri/src/ipfs.rs:381-439 | The two transforms agree on a buffer unless a partial frame of stereo is to be split. |
| TransformLaws.RustAgreesIff | apps/desktop/src-tauri/src/ipfs.rs:381-439 | They agree on every mask and buffer of a length exactly without two channels, on whole frames, or on one byte of 16-bit samples. |
| TransformLaws.RustDiffers | apps/desktop/src-tauri/src/ipfs.rs:385 | On every other partial frame but one byte, a buffer the web split moves and the desktop one leaves. |
| Spans.MergeSpans | packages/repack/src/dag.ts:361-373 | Ascending separated spans that cover exactly the union of the input inside the file. |
| Spans.SeparatedIsCanonical | packages/repack/src/dag.ts:358-373 | Separated spans are determined by the bytes they cover. |
| Skeleton.BuildSkeletonV2 | packages/repack/src/dag.ts:310-356 | The skeleton and its zero spans, raw slots zeroed and compressed slots repointed, as functions of the slots. |
| SkeletonLaws.SkeletonAt | packages/repack/src/dag.ts:330-355 | Away from header fields the skeleton is zero on the zero spans and the file elsewhere. |
| SkeletonLaws.SkeletonWithoutCompressed | packages/repack/src/dag.ts:794-795 | Without compressed slots the skeleton is the file with exactly the slots zeroed. |
| Recipe.BuildRecipe | packages/repack/src/dag.ts:530-546 | The run-length recipe of content chunks and zero runs. |
| Recipe.AssembleSkeleton | apps/desktop/src-tauri/src/ipfs.rs:596-619 | The reader's loop computes what a recipe denotes, and fails when the layout names too many chunks. |
| Recipe.LayoutReads | apps/desktop/src-tauri/src/ipfs.rs:596-619 | A stored layout means its runs in turn, so many chunks and then so many zeros; it fails exactly when it names more chunks than there are. |
| Recipe.RecipeDenotes | packages/repack/src/dag.ts:530-546 | Every recipe rebuilds its skeleton with the spans zeroed. |
| Recipe.RecipeIsLossless | packages/repack/src/dag.ts:527-546 | It rebuilds the skeleton itself exactly when that is zero on the spans. |
| Recipe.RecipeIsUnique | packages/repack/src/dag.ts:361-373 | Zero spans in any order or overlap determine the recipe. |
| Recipe.RecipeTransfers | packages/repack/src/dag.ts:517-546 | The bytes transferred and the zeros left to synthesize make up the skeleton. |
| Recipe.RecipeChunksFit | packages/repack/src/dag.ts:530-546 | Every block of a recipe keeps to the chunker's limit. |
| SkeletonLaws.LosslessIffHeadersSurvive | packages/repack/src/dag.ts:341-353 | For v2 the recipe is lossless exactly when the last write to each header byte inside a zero span leaves zero: a span, a zero byte of the slot's cursor, or a zero flag. |
| SkeletonLaws.HeadersOutsideSpansAreSafe | packages/repack/src/dag.ts:341-353 | Headers outside every zero span are enough. |
| SkeletonHeaders.CompressedIsRepointed | packages/repack/src/dag.ts:341-353 | The header of a compressed slot points where the appended regions before its own end, unless a later slot writes there. |
| SkeletonHeaders.CompressionIsCleared | packages/repack/src/dag.ts:341-353 | And its flags no longer say compressed. |
| SkeletonHeaders.RegionIsZero | packages/repack/src/dag.ts:326-353 | The region it points to is there, of the decoded length, and zero. |
| ItSlots.ItCompressedSpan | packages/repack/src/parse.ts:243-257 | The walk over length-prefixed blocks, channel by channel, or -1 past the end of the file. |
| ItSlots.ItLikeSlots | packages/repack/src/parse.ts:262-295 | The slots of an Impulse Tracker file, compressed and raw. |
| ItSlots.SampleSlots | packages/repack/src/parse.ts:382-392 | Those whose decoded length fits the file. |
| ItSlots.FileSlotsAreLocated | packages/repack/src/parse.ts:243-295 | For every file the slots, their headers and their spans lie in it, in numbered order: what the builders ask for. |
| ItHeaders.RawHeadReads | packages/repack/src/parse.ts:262-295 | A raw sample's header, as written, gives its slot, cut short at the end of the file. |
| ItHeaders.CompressedHeadReads | packages/repack/src/parse.ts:243-287 | A compressed sample's header and blocks, as written channel after channel, give its slot and span. |
| ItHeaders.BlocksHoldFrames | packages/repack/src/parse.ts:243-257 | As many blocks as full ones need to hold the frames. |
| Blocks.ChunkToCids | packages/repack/src/dag.ts:776-783 | Chunking into the store leaves blocks that give back the chunks, and keeps the store content-addressed. |
| Blocks.FetchVerified | packages/repack/src/dag.ts:1225-1238 | A verified read against any getter is the addressed block or a failure. |
| Repack.PickEnc | packages/repack/src/dag.ts:685-688 | The first mask that reproduces the on-disk bytes, or none does. |
| Repack.DumpForIsLast | packages/repack/src/dag.ts:727-728 | A slot's dump is the last one with its number. |
| Repack.SelectStreamed | packages/repack/src/dag.ts:730-743 | Exactly the slots whose dump reproduces the file are picked, in slot order, each with its first mask. |
| Repack.SkeletonIsRestorable | packages/repack/src/dag.ts:720-812 | Every byte the skeleton zeroes is put back by some picked sample, overlapping regions included. |
| Repack.AddSample | packages/repack/src/dag.ts:991-998 | What is stored of a sample gives its PCM back exactly when it is raw or of whole frames; v3 never uses FLAC. |
| Repack.WritingRestores | packages/repack/src/dag.ts:865-877 | Writing every sample over the skeleton gives the file, however the regions overlap, for a client that writes each sample right. |
| Repack.BuildDag | packages/repack/src/dag.ts:720-843 | Any dumps, right or wrong, give a root that denotes the file, in v4 when its PCM is kept; only compressed samples are refused. |
| Repack.BuiltDenotesFile | packages/repack/src/dag.ts:850-879 | A built root denotes the file for any client whose transform writes every pick right. |
| Rebuild.Reassemble | packages/repack/src/dag.ts:850-879 | Through any getter a verifying read of a root, web or desktop, gives what the store denotes for that client, or fails; an honest getter succeeds, and one that serves only the store fails where it denotes nothing. |
| Rebuild.DenotedIsWhole | packages/repack/src/dag.ts:850-864 | A root denotes a file only under its own version, and of the length it names. |
| Repack.BuildThenReassemble | packages/repack/src/dag.ts:720-879 | Build, then reassemble through any getter: failure or the original bytes, with the web transform for any v3 root and any v4 root whose PCM is kept. |
| Repack.BuildThenReassembleWeb | packages/repack/src/dag.ts:720-879 | For version 3 on the web with no condition at all. |
| DesktopRebuild.SafeSlotsWriteRight | apps/desktop/src-tauri/src/ipfs.rs:496-532 | On safe shapes the desktop transform writes every pick of every build right. |
| DesktopRebuild.DesktopRebuildsIff | apps/desktop/src-tauri/src/ipfs.rs:496-532 | For given slots the desktop client gives back every file of a size, whatever was dumped, exactly when every slot is of a safe shape. |
| ItRebuild.UnsafeIsCutShort | packages/repack/src/parse.ts:289-290 | Of raw Impulse Tracker samples only one that runs to the end of the file is of an unsafe shape. |
| ItRebuild.ItRebuildsIff | apps/desktop/src-tauri/src/ipfs.rs:496-532 | Every file with the slots of a given Impulse Tracker file is given back when they are safe, and otherwise one is not, unless a header lies inside an unsafe sample. |
| ItRebuild.DesktopLosesThreeBytes | apps/desktop/src-tauri/src/ipfs.rs:385 | A file of 291 bytes ending in 1 3 0: with 1 2 3 dumped its one stereo sample is picked with the split and written back as dumped. |
| DesktopRebuild.BuildThenReassembleDesktop | apps/desktop/src-tauri/src/ipfs.rs:496-532 | Build, then reassemble on the desktop: failure or the original bytes for safe shapes, of whole frames in v4. |
| DesktopRebuild.WholeSlotsAreKept | packages/repack/src/flac.ts:74-98 | Slots of whole frames are kept in v4 whatever FLAC makes of them. |
| Regions.SampleRegions | packages/repack/src/parse.ts:425-445 | A sorted disjoint in-bounds partition; a region is dropped only out of bounds or inside a kept one. |
| RepackV1.BuildSkeleton | packages/repack/src/dag.ts:91-109 | The concatenated gaps of a partition. |
| RepackV1.SplicingRestores | packages/repack/src/dag.ts:1271-1290 | Splicing the skeleton with the samples restores the file. |
| RepackV1.ReassembleV1 | packages/repack/src/dag.ts:1245-1293 | Through any getter: what the store denotes, or failure. |
| RepackV1.SeekHints | packages/repack/src/dag.ts:187-209 | The optional tables are absent unless a checkpoint resolves. |
| RepackV1.BuildFromRegions | packages/repack/src/dag.ts:131-228 | The root denotes the file for any partition. |
| RepackV1.BuildThenReassembleV1 | packages/repack/src/dag.ts:112-228 | Whatever regions an extractor reports, building and reassembling gives failure or the file. |
| Plan.IndexByOffset | packages/repack/src/dag.ts:746-747 | The map keeps the last slot written at an offset. |
| Plan.BuildPlan | packages/repack/src/dag.ts:748-767 | Checkpoints that resolve to something, or the segment-0 fallback. |
| Plan.RequiredAtOrder | apps/desktop/src-tauri/src/ipfs.rs:154-169 | The floor checkpoint and the next one, clamped. |
| Plan.RequiredAtZero | packages/repack/src/dag.ts:378-388 | The web builder's forward search gives the same set at order 0. |
| PlanLaws.PrunePlan | apps/desktop/src-tauri/src/ipfs.rs:717-723 | Unstreamed samples and emptied checkpoints go. |
| PlanLaws.PruningKeepsRequired | apps/desktop/src-tauri/src/ipfs.rs:708-722 | At every order the pruned plan requires every streamed slot the original did. |
| PlanLaws.PruningNamesOnlyStreamed | apps/desktop/src-tauri/src/ipfs.rs:708-722 | And nothing that will not arrive. |
| PlanLaws.PruningFixesStreamedPlans | apps/desktop/src-tauri/src/ipfs.rs:717-722 | A plan that names only streamed slots is left alone. |
| FenceExact.PrunedRequiredIff | apps/desktop/src-tauri/src/ipfs.rs:708-722 | What pruning leaves required, exactly: the streamed samples of the checkpoints on either side of the order that still name one. |
| Seek.BuildTimingMap | packages/repack/src/seek.ts:291-314 | Start time of each order, speed and tempo carried row by row. |
| TimingLaws.StartIsSumOfRows | packages/repack/src/seek.ts:291-314 | An order starts after the sum of 2.5 * S / T over all rows before it, S and T the speed and tempo last set in everything played by then. |
| TimingLaws.SecondsForPlayedOrder | packages/ui/src/audio/fence.ts:100-106 | The client's seconds for a played order are that sum. |
| Seek.WalkHistory | packages/repack/src/seek.ts:315-340 | The held-note walk computes the voices on entering a position. |
| Seek.CheckpointAt | packages/repack/src/seek.ts:324-366 | A checkpoint lists, sorted, what is held on entry or triggered before the next one. |
| FenceExact.CheckpointIsExact | packages/repack/src/seek.ts:316-366 | A checkpoint lists an offset exactly when a sample there can sound at an event of its span. |
| FenceExact.Segment0IsExact | packages/repack/src/seek.ts:371-390 | Segment 0 lists exactly those of the first played order. |
| FenceExact.CheckpointsAreCapped | packages/repack/src/seek.ts:314-318 | At most 512 checkpoints; up to 512 orders one each. |
| Seek.SimulateTables | packages/repack/src/seek.ts:290-396 | Timing map, checkpoints at every stride, and segment 0, as specified. |
| FenceCoverage.SimulationIsRight | packages/repack/src/seek.ts:278-288 | The simulated voices are what sounds on each channel: last note since the last cut, by the last sample named. |
| FenceCoverage.SoundingComesFrom | packages/repack/src/seek.ts:328-362 | What sounds after a span sounded before it or was triggered in it. |
| FenceCoverage.CheckpointCoversSpan | packages/repack/src/seek.ts:316-366 | A checkpoint covers everything that can sound up to the next one. |
| FenceCoverage.FenceHasNoGap | packages/repack/src/dag.ts:745-767 | Whatever can sound at an event of a played order, if its offset is streamed, is required at that order. |
| FenceCoverage.FenceLooksAhead | packages/ui/src/audio/fence.ts:60-79 | The set required at one order covers what can sound until the end of the next checkpoint's span, empty checkpoints dropped or not. |
| FenceCoverage.NextIsWithinReach | apps/desktop/src-tauri/src/ipfs.rs:148-153 | That always includes the next played order, into which a block may run. |
| FenceCoverage.SlotCoveredIffLastAtOffset | packages/repack/src/dag.ts:746-754 | A streamed slot that can sound within that reach is required exactly when no later streamed slot shares its offset. |
| FenceExact.RequiredIsExact | apps/desktop/src-tauri/src/ipfs.rs:154-169 | A slot is required at an order exactly when it can sound in the last span up to it, or the first after it, in which anything streamed can. |
| FenceCoverage.EarlierSlotIsNotRequired | packages/repack/src/dag.ts:746-754 | A song and two slots at one offset where the earlier sounds and is not required. |
| FenceCoverage.OpeningFallbackIsIdle | packages/repack/src/dag.ts:763-766 | On simulated tables the segment-0 fallback never fires. |
| ModTables.ModSlots | packages/repack/src/parse.ts:215-233 | The slots of a module file, cut short at the end of the file. |
| ModTables.ExtractMod | packages/repack/src/parse.ts:38-60 | Its v1 regions. |
| ModTables.LocatorsAgree | packages/repack/src/parse.ts:215-233 | The v2 slots are the v1 regions that survive the bounds check, and the seek tables name the same offsets. |
| ModTables.SamplesAreDisjoint | packages/repack/src/seek.ts:552-570 | Two samples of a module never share an offset nor overlap. |
| ModTables.DecodePattern | packages/repack/src/seek.ts:578-608 | The events of a pattern, cell by cell; a pattern past the end of the file is silent. |
| ModPacking.PackedPatternReads | packages/repack/src/seek.ts:578-608 | Sixty-four rows of any cells, packed four bytes each, are read back cell by cell. |
| ModPacking.SampleLies | packages/repack/src/parse.ts:215-233 | Samples follow one another from the first on, as long as the ones before fit. |
| ModPacking.LengthReads | packages/repack/src/parse.ts:215-233 | A length is its two bytes, most significant first, in words. |
| ModPacking.SongReads | packages/repack/src/seek.ts:542-576 | Every order of the list is played, from speed 6 and tempo 125. |
| ModPacking.TagOneDigit | packages/repack/src/parse.ts:23-36 | Channel counts given by one digit. |
| ModPacking.TagTwoDigits | packages/repack/src/parse.ts:23-36 | And by two. |
| ModTables.ModModelOk | packages/repack/src/seek.ts:542-614 | For every file the adapter keeps what the simulation asks: row-sorted events in range, ascending orders. |
| ModTables.ModSeekTables | packages/repack/src/seek.ts:542-627 | Tables exactly when the header and channel tag are there, and then as specified. |
| ModTables.ModFenceHasNoGap | packages/repack/src/seek.ts:542-627 | In a module file a sample that can sound within reach, if its slot is streamed, is required, with no condition on the file. |
| ItTables.ReadHeader | packages/repack/src/seek.ts:86-115 | The header, or none when the file is too short or names no order or sample. |
| ItTables.DecodeEvents | packages/repack/src/seek.ts:128-169 | The packed pattern, cell by cell, with what each channel remembers; reads past the end of the file neither play nor cut. |
| ItPacking.PackedPatternReads | packages/repack/src/seek.ts:128-169 | Rows of any cells, masks and notes given or left to be remembered, packed and read back: exactly their events, row by row. |
| ItPacking.CommandsRead | packages/repack/src/seek.ts:446-450 | Axx sets the speed, Txx from 0x20 on the tempo, nothing else either. |
| ItPacking.NotesRead | packages/repack/src/seek.ts:477-482 | Cuts and releases silence, notes below 120 start the sample their instrument has. |
| ItHeaders.KeyboardPlays | packages/repack/src/seek.ts:175-187 | A note plays the sample its instrument's keyboard has there. |
| ItHeaders.SampleModePlays | packages/repack/src/seek.ts:175-178 | Without instruments the number is the sample's own. |
| ItHeaders.InstrumentsUsed | packages/repack/src/seek.ts:86-115 | Instruments are used when flag 4 is set and there are any. |
| ItHeaders.PlayedOrdersAre | packages/repack/src/seek.ts:438-441 | The played orders are the entries below 254. |
| ItHeaders.StartSettings | packages/repack/src/seek.ts:100-101 | Speed and tempo at the start are the header's, or 6 and 125. |
| ItTables.SongIsOk | packages/repack/src/seek.ts:128-216 | For every header the adapter keeps what the simulation asks: row-sorted events in range, ascending orders. |
| ItTables.ItTimingMap | packages/repack/src/seek.ts:434-456 | The timing pass over the order list, markers skipped, gives the simulation's timing map. |
| ItTables.ItHeldAt | packages/repack/src/seek.ts:459-487 | The walk without latches holds what the simulation holds on entering an order. |
| ItTables.ItForward | packages/repack/src/seek.ts:495-511 | The forward scan up to the next checkpoint's order collects what the simulation triggers in the span. |
| ItTables.ItCheckpointAt | packages/repack/src/seek.ts:459-513 | So each checkpoint lists what the simulation's does. |
| ItTables.ItSeekTables | packages/repack/src/seek.ts:398-532 | Tables exactly when there is a header, and then those of the common simulation. |
| ItTables.ItLocatorsAgree | packages/repack/src/seek.ts:196-216 | The tables put a sample where the locator puts its slot. |
| BuiltFence.BuiltCoversIff | packages/repack/src/dag.ts:725-767 | For any built root: a streamed sample that can sound within reach of an order is required there exactly when it is the last at its offset. |
| BuiltFence.GuardedSampleIsProvided | packages/ui/src/audio/fence.ts:60-79 | With the pruned plan's required samples in, so is every such sample. |
| BuiltFence.Quantum | packages/ui/src/audio/player.worklet.ts:269-290 | When the fence lets a block play, every streamed sample that can sound until the end of the next span is in, so the block may run into the next order. |
| ModFence.BuiltModHasNoGap | packages/repack/src/dag.ts:725-767 | In a built module file every streamed sample that can sound within reach is required. |
| ModFence.BuildModule | packages/repack/src/dag.ts:720-843 | Locate, simulate, build a module file: any dumps give a root with that fence, which both clients rebuild to the file, v3 or v4. |
| ItBake.ItJoined | packages/repack/src/parse.ts:262-295 | For every Impulse Tracker file slots and tables meet, in number order. |
| ItBake.BuildIt | packages/repack/src/dag.ts:720-843 | The same for an Impulse Tracker file: refused only for compressed samples; v3 comes back on the web, and safe slots on the desktop. |
| BuildV2.FindCandidates | packages/repack/src/dag.ts:417-428 | The slots with a dump of their own length. |
| BuildV2.CandidatesAre | packages/repack/src/dag.ts:417-428 | A slot is a candidate exactly with a non-empty dump of its own length. |
| BuildV2.Choose | packages/repack/src/dag.ts:464-470 | Compressed slots only as far as the plan covers them. |
| BuildV2.ChosenAre | packages/repack/src/dag.ts:464-470 | Raw candidates are always streamed, compressed ones exactly when covered and not demoted. |
| BuildV2.WarmBytes | packages/repack/src/dag.ts:556-562 | What first playback transfers, every chunk once: the skeleton's and the required samples'. |
| BuildV2.BuildDagV2 | packages/repack/src/dag.ts:407-597 | Compressed slots are left in the skeleton exactly when streaming them saves under 128 KiB; the root holds the samples, the pruned plan and the recipe. |
| BuildV2.StreamedCompressedIsCovered | packages/repack/src/dag.ts:457-484 | Every compressed slot streamed is one the final plan names. |
| BuildV2.V2SkeletonIff | packages/repack/src/dag.ts:341-353 | What a client assembles is the built skeleton exactly when the last write to each header byte inside a zero span leaves zero. |
| ItBake.BuildItV2 | packages/repack/src/dag.ts:407-597 | Locate, simulate, build version 2 of an Impulse Tracker file. |
| ItBake.ItV2CoversIff | packages/repack/src/dag.ts:430-484 | There a streamed sample that can sound, compressed or not, is required exactly when no later candidate shares its offset. |
| ItOverlap.HeaderInSpanIsLost | packages/repack/src/dag.ts:343-351 | For every size from 262362 bytes up a file whose compressed sample is streamed and whose assembled skeleton is not the one built. |
| ClientFence.Fence.FloorIdx | packages/ui/src/audio/fence.ts:41-53 | The binary search finds the floor checkpoint. |
| ClientFence.Fence.RequiredAtOrder | packages/ui/src/audio/fence.ts:60-79 | The web fence requires the desktop's set. |
| ClientFence.Fence.Ready | packages/ui/src/audio/fence.ts:113-128 | True only with the order's samples in, after a stall with the margin in; and when it stalls. |
| ClientFence.MarginIs | packages/ui/src/audio/fence.ts:113-128 | The margin after a stall is what the fence asks for at the order and at the next `lookahead` checkpoints, so none of those stalls again. |
| ClientFence.RequiredChangesAtCheckpoints | packages/ui/src/audio/fence.ts:81-89 | The required set changes at checkpoint orders only. |
| ClientFence.Fence.PlayableSeconds | packages/ui/src/audio/fence.ts:90-98 | The start of the earliest blocked order, among all orders, or the whole duration. |
| ClientFence.SecondsForOrderIs | packages/ui/src/audio/fence.ts:100-106 | The latest start among the entries up to an order, or 0. |
| ClientFence.NothingSoundsEarly | packages/ui/src/audio/fence.ts:1-9 | From simulation to client: a slot that can sound before the fence must be asked again has arrived, exactly when no later streamed slot shares its offset. |
| ClientFence.FenceOpensWhenAllArrived | apps/desktop/src-tauri/src/ipfs.rs:708-722 | Once every streamed sample is in, every order may start. |
| SeekTime.OrderForSeconds | apps/desktop/src-tauri/src/ipfs.rs:180-190 | The last entry among those that start latest by the given time, or 0. |
| SeekTime.StartTimesIncrease | packages/repack/src/seek.ts:290-314 | Start times strictly increase from 0 when patterns have rows. |
| SeekTime.SeekTimeInverts | apps/desktop/src-tauri/src/ipfs.rs:176-190 | The order found is the one whose interval contains the time. |
| SeekTime.SomeOrderIsPlaying | apps/desktop/src-tauri/src/ipfs.rs:180-190 | From the start on some order is always found. |
| Stream.KeyByMembership | apps/desktop/src-tauri/src/ipfs.rs:624-636 | The key depends only on which checkpoints name the sample. |
| Stream.UpcomingBeforePassedIff | apps/desktop/src-tauri/src/ipfs.rs:621-636 | Upcoming samples precede passed ones exactly while no order exceeds 10^9 + 1. |
| Stream.PlannedBeforeUnplanned | apps/desktop/src-tauri/src/ipfs.rs:634 | Planned samples precede unplanned ones. |
| Stream.IndexOrders | apps/desktop/src-tauri/src/ipfs.rs:734-739 | The index lists, for each sample, the orders of the checkpoints that name it. |
| Stream.DeliverSamples | apps/desktop/src-tauri/src/ipfs.rs:766-810 | Required-at-0 samples first, then at each step one of minimal key for the playhead of that step; no entry twice. |
| Stream.CompleteMeansAll | apps/desktop/src-tauri/src/ipfs.rs:788-810 | A complete delivery hands over every entry. |
| Stream.WarmBatchOpensFence | apps/desktop/src-tauri/src/ipfs.rs:741-783 | The warm batch alone satisfies the fence at order 0. |
| Stream.FenceSamplesFirst | apps/desktop/src-tauri/src/ipfs.rs:785-801 | With the playhead on a checkpoint, what the fence waits for is fetched before anything else. |
| Stream.FenceSampleFirstIff | apps/desktop/src-tauri/src/ipfs.rs:621-636 | At any playhead: an awaited sample is fetched before one not awaited exactly unless the other is needed again and the awaited one not before it. |
| Stream.FenceSampleCanWait | apps/desktop/src-tauri/src/ipfs.rs:621-636 | Between checkpoints that fails: a concrete plan. |
| Stream.StreamRoot | apps/desktop/src-tauri/src/ipfs.rs:706-811 | Prune, index, deliver: the whole schedule for any playhead movement. |
| PageLru.PageCache.Get | packages/catalog-web/src/scheduler.ts:52-59 | A hit returns the right page and becomes the most recent. |
| PageLru.PageCache.Put | packages/catalog-web/src/scheduler.ts:61-69 | A new page goes last and the oldest goes when over the cap; a present one is left where it is. |
| PageLru.TouchNear | packages/catalog-web/src/scheduler.ts:52-59 | A hit puts at most one entry behind the others. |
| PageLru.AdmitNear | packages/catalog-web/src/scheduler.ts:61-69 | What fewer than cap entries lie behind is not evicted by an insertion. |
| CatalogVfs.PageScheduler.Begin | packages/catalog-web/src/scheduler.ts:141-143 | The forward-run counter, advanced by every read. |
| CatalogVfs.PageScheduler.Fetch | packages/catalog-web/src/scheduler.ts:160-173 | A batch interleaved with other queries: its pages, or a failure, or a changed epoch. |
| CatalogVfs.PageScheduler.Ensure | packages/catalog-web/src/scheduler.ts:140-175 | The cache's order, the wave count and the outcome of a call, with anything done by others while it is in flight. |
| Catalog.EnsureMissesNothing | packages/catalog-web/src/scheduler.ts:145-175 | When the window and what others touch meanwhile fit the cap, no page of the window is missing afterwards. |
| Catalog.ResidentIffWindowFits | packages/catalog-web/src/scheduler.ts:145-175 | With nobody else running, that condition is exact. |
| Catalog.ResidentAfterwards | packages/catalog-web/src/scheduler.ts:177-182 | The pages stay resident while others go on and everything fits. |
| WebScan.WebScanWaves | packages/catalog-web/src/scheduler.ts:140-175 | A cold scan of n pages waits for min(n, max(5, pages left - 15)) batches, whatever else the cache holds. |
| WebScan.CounterIsRun | packages/catalog-web/src/scheduler.ts:141-143 | The counter is the length of the forward run the last read ends. |
| CatalogVfs.CatalogVFS.JRead | packages/catalog-web/src/vfs.ts:45-79 | Success or a short read fills the buffer with the file's slice, zero past the end; a cancelled read leaves it alone; it throws only on a failed fetch or a window that does not fit. |
| CatalogFiles.TickCache.Put | apps/desktop/src-tauri/src/catalog.rs:156-166 | Insertion with a fresh stamp, then eviction of the least stamp, in any map order. |
| CatalogFiles.CatalogFile.EnsureChunks | apps/desktop/src-tauri/src/catalog.rs:279-361 | What is fetched, in how many waves, and the cache after every outcome: all stored in arrival order, those before the failure, or none. |
| CatalogFiles.CatalogFile.ReadExactAt | apps/desktop/src-tauri/src/catalog.rs:492-543 | A successful read fills the buffer with the file's slice; a failed one leaves buffer and cursor alone. The run counter, the waves and the cache after every outcome, and when a chunk is missing. |
| ReadAhead.BatchResident | apps/desktop/src-tauri/src/catalog.rs:351-360 | A batch no larger than the cache survives its own insertion in any arrival order. |
| ReadAhead.SurvivesBatch | apps/desktop/src-tauri/src/catalog.rs:137-166 | A resident chunk outlives a batch exactly when enough older entries go first. |
| ReadAhead.ReadFindsItsChunks | apps/desktop/src-tauri/src/catalog.rs:286-301 | A read whose batch fits finds every chunk exactly when its resident ones outlive the batch. |
| ReadAhead.OneChunkIsFound | apps/desktop/src-tauri/src/catalog.rs:518-526 | A read inside one chunk always finds it. |
| ReadAhead.OldestChunkIsLost | apps/desktop/src-tauri/src/catalog.rs:286-301 | A read of two chunks loses the first when the cache is full and that chunk is its oldest. |
| ReadAhead.ScanWaves | apps/desktop/src-tauri/src/catalog.rs:279-301 | An ascending scan of n chunks from cold costs min(n,4) + ceil(max(0,n-4)/16) waves, any arrival order, any other content. |
| ReadAhead.CounterIsRun | apps/desktop/src-tauri/src/catalog.rs:511-513 | The counter is the length of the forward run the last read ends. |
| Playlist.PlaylistStore.Ingest | node/playlist.go:231-255 | Newest sequence wins, older ones refresh the clock; document bytes add up and both caps hold afterwards. |
| Playlist.PlaylistStore.Evict | node/playlist.go:259-271 | A least recently seen set goes, and no more than needed. |
| Playlist.EvictionIsUnique | node/playlist.go:257-271 | With distinct clock readings there is one such set. |
| Playlist.NewestStaysIffItFits | node/playlist.go:252-271 | The entry seen strictly last survives exactly when its document fits the budget. |
| Playlist.PlaylistStore.Since | node/playlist.go:298-308 | Exactly the entries written after the cursor, each once, and the current version. |
| PlaylistLaws.ReplicaHoldsNewest | node/playlist.go:228-255 | Over every run without eviction a store holds the newest message heard for every name. |
| PlaylistLaws.ReplicasConverge | node/playlist.go:228-255 | Two such stores that heard the same messages agree, whatever the order and duplication. |
| PlaylistLaws.PollingMissesNothing | node/playlist.go:295-308 | Over every run with evictions, after a poll the client agrees on every name present, and no write is given to it twice. |
| PlaylistLaws.NodeKeepsNewest | node/playlist.go:259-271 | Under the node's caps the entry seen strictly last always stays. |
| Envelope.EncodePlaylistMsg | node/playlist.go:107-115 | The append loop builds the encoding. |
| Envelope.EncodingOfThreeBytes | node/playlist.go:107-115 | Name, record and document in that order behind the version. |
| Envelope.UvarintIsPositional | node/playlist.go:117-122 | A length ends with its first byte below 128 and is the number its low bits spell, seven a byte. |
| Envelope.EncodedRoundTrips | node/playlist.go:107-149 | An encoding decodes to its parts exactly within the caps and with nothing after it; the error otherwise. |
| Envelope.EncodedIsPrefixFree | node/playlist.go:104-115 | No encoding is a proper prefix of another, and none encodes two messages. |
| Envelope.DecodedIsEncodedIffShortest | node/playlist.go:117-149 | What decodes is within the caps, and is its own encoding exactly when the length prefixes are shortest. |
| Envelope.LongPrefixDecodes | node/playlist.go:117-122 | A frame with a longer prefix decodes and is not the encoding of its parts. |
| BakePools.PumpKeeps | apps/server/src/bake-pool.ts:115-124 | Pumping keeps the books and leaves no job waiting beside a free worker. |
| BakePools.AnswerKeeps | apps/server/src/bake-pool.ts:75-82 | An answer settles one job once and frees its worker. |
| BakePools.CrashKeeps | apps/server/src/bake-pool.ts:83-96 | A crash settles the worker's job as failed, once, and removes the worker everywhere. |
| BakePools.BakePool.Run | apps/server/src/bake-pool.ts:106-113 | A module becomes an outstanding job, dispatched in submission order. |
| BakePools.BakePool.OnMessage | apps/server/src/bake-pool.ts:75-82 | Workers split into free and busy, jobs into pending and busy, after every answer. |
| BakePools.BakePool.OnError | apps/server/src/bake-pool.ts:83-101 | And after every crash; the pool keeps its size until it is closed. |
| Ingest.Semaphore.Acquire | apps/server/src/bake-pool.ts:16-25 | A slot while there is one, else a place in the queue; the count is the number of holders. |
| Ingest.Semaphore.Release | apps/server/src/bake-pool.ts:26-30 | The slot passes to the first waiter. |
| Ingest.Ingestor.Applied | apps/server/src/ingest.ts:170-174 | The mutex and the slot pass on; a waiting module starts. |
| Ingest.AtMostTwoPending | apps/server/src/ingest.ts:119-180 | Under n + 2 slots at most two jobs wait for a worker, and results are applied one at a time in the order they came. |

## Left out

- Playing: the promise covers the linear order walk, not pattern breaks, jumps or loops; the planner makes no other.
- The S3M and XM pattern adapters: they meet the model at the adapter interface (`ModelOk`).
- ItTables.DecodeEvents: follows the program, which starts each pattern with no instrument remembered; what a player carries over from the pattern before is not part of what can sound here.
- ModTables.ModSlots: takes files that reach past the channel tag, which format detection has checked.
- The slot locators of S3M and XM, and the v1 ones other than ProTracker's: `Skeleton`, `Repack` and `RepackV1` take any slots or regions inside the file.
- ItRebuild.ItRebuildsIff: where a header lies among the bytes of an unsafe sample, or a compressed sample does not fit the file, says only that safe slots are enough.
- Sample durations in the simulation (computed by the program, read by nothing the plan uses).
- BuildV2.BuildDagV2: the manifest block and the clients' fetch of a v2 root are not modelled; the caches of decoded patterns neither.
- Repack.BuildDag: v3 and v4 share one model, v3 being v4 with every leaf raw; FLAC itself is a function parameter, and its law covers one or two channels of 8 or 16 bits, which is all a locator reports.
- DesktopRebuild.BuildThenReassembleDesktop: both clients share one FLAC decoder; one that fails on a frame instead of decoding it would only add failures.
- Cdc.CdcChunks: requires max > 0, since the program does not terminate with max = 0 on a non-empty buffer.
- RepackV1.ReassembleV1: on a malformed v1 manifest with overlapping or overrunning entries it fails as the desktop reader does; the web reader would clamp or throw inside a typed array.
- Times are reals: floating-point rounding is not modelled, and node encoding is assumed to keep the times it is given.
- Counters, versions and offsets are unbounded; the gear hash, the transforms and the rewritten header fields have their machine width.
- SHA-256 collisions, dag-cbor, FLAC, zstd, SQLite, signatures and the IPNS record format.
- libp2p, gossip, rate limiters, announcements and suppression windows, and the order in which concurrent fetches of one batch are issued.
- CatalogFiles.CatalogFile.ReadExactAt: one query at a time; what other threads evict between its fetch and its copy is not modelled (the web scheduler's counterpart is), nor the per-page zstd variant of the desktop read.
- CatalogVfs.PageScheduler.Ensure: byte and block statistics are not modelled; the wave count is the call's own.
- Playlist.PlaylistStore.Ingest: takes a validated message, so a non-empty name; the clock is an argument.
- BakePools.BakePool.OnMessage: a worker answers only for the job it was given, as the worker script does.
- BakePools.BakePool.OnError: each worker fails at most once, as the runtime reports it; `close` marks the pool closed and terminates nothing here.
- Ingest.AtMostTwoPending: holds until the pool is closed, which the program does once nothing is in flight.
- The user interface, the HTTP endpoints, the catalog's SQL and the corpus walk.
