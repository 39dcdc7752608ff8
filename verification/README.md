# NEDB, modelled and verified in Dafny

NEDB is a log-structured, time-travelling embedded database. Its op log is an
append-only hash chain; the store, the relations and the indexes are folds of
that log; files are cut into content-defined chunks; version 3 packs immutable
objects into segment files. This project models the four parts that hold the
hard state, and proves what they promise for all inputs and all runs.

**The segment store** (`Segment*.dfy`). A directory is a map from segment
numbers to bytes, with a synced length per file and the sidecars beside it. A
crash cuts every file at any byte at or after its synced length and may lose or
spoil any sidecar. `SegmentRuns` follows every run of puts, syncs and crashes,
one write at a time; `SegmentLifetimes` adds compaction, with a crash possible
at every stage, and crashes in the course of opening; `SegmentPacking` says
where compaction ends one segment and starts the next; the class in
`SegmentStore` is the program, with its loops, and records every directory it
passes through.

**The op-log engine** (`OpLog`, `MvccStore`, `RelationGraph`, `FieldIndexes`,
`Engine`, `Query`, `QueryMeaning`, `TimeQueries`, `Snapshot`, `Trace`,
`Database`, `Sequencer`). A log is folded into version chains, interval-stamped
edges and indexes. A `View` is all that a reader at one point can see; time
travel, snapshots and pinned readers are statements about views. `QueryMeaning`
says what the clauses of a query mean without the functions that execute them.
`Sequencer` is the group-commit protocol as a state machine with an arbitrary
interleaving of its steps, and the committer as a class that carries out a
batch.

**Files and commitments** (`Hashing`, `Merkle`, `InclusionProof`, `Cascade`,
`BlobStore`). Hashing is an arbitrary function. Binding statements read "equal,
or here is a collision among these inputs", so nothing is assumed of it.

**Order and graphs** (`OrderedValue`, `SortedIndex`, `OrderBy`, `Walks`,
`GraphStore`, `VersionChain`). The sorted index with its top-k path, the
breadth-first trace, the walk along previous versions.

Parameters stand for foreign code: the hash, the canonical encoding of an op,
the Gear table, the codec of a blob store, the tokenizer, the test whether a term
occurs in the text of a document, and how an id that is not text is written.

Where the code does less than its documentation promises, the exact condition is
proved, with an input or a run that shows the failure:

- Compaction is documented as never losing a live object
  (`rust/nedb-v2/src/segment.rs:452-455`). A crash between the writing of a
  sidecar and the creation of the next segment leaves a sidecar beside a segment
  that goes on growing; a compaction then seals that segment without rewriting
  the sidecar, and a crash behind its first write hides what was appended in
  between. `SegmentStale.CompactionCrashSafe` says exactly when a hash is safe,
  `SegmentStale.StaleSidecarLoses` gives the run, and
  `SegmentStale.EveryCompactionReads` places the condition at the end of any life
  of a store.
- An equality index does not list documents that lack the field, while the
  filter takes a missing field for null: `Query.IndexedIsScan`,
  `TimeQueries.NullIsMissed`. So an execution at the head may answer less than one
  at the same point of the past: `TimeQueries.QueryTimeTravel`,
  `Sequencer.PinnedQueries`.
- A search in the past, a pinned one included, reads the text indexes of the
  present: `TimeQueries.PastSearchIsScan`, `TimeQueries.PastSearchMisses`,
  `TimeQueries.SearchTimeTravel`, `Sequencer.PinnedSearches`.
- The backward trace follows what documents say, the forward trace what ops say,
  and only through keys that have a document: `Trace.ConverseWhen`,
  `Trace.HandWrittenCause`; a row of the forward trace names a key, not an op:
  `Trace.PairConverse`, `Trace.RewrittenRow`. A snapshot does not save the cause
  map: `Trace.OpenKeepsCauses`.
- A snapshot splits the name of an edge list at its first bar:
  `Snapshot.RelationsRoundTrip`, `Snapshot.BarIsLost`.
- Merkle roots bind neither the number of leaves nor the bytes
  (`python/nedb/merkle.py:8-11`): `Merkle.LengthsAreNotBound`,
  `BlobStore.RootOfShortFile`, and exactly, `Merkle.SharedRoots`. Inclusion proofs
  do not bind the sequence number: `InclusionProof.SeqIsNotBound`, and exactly,
  `InclusionProof.SeqIsRight`.
- The top-k path leaves out documents without the field: `OrderBy.FastPathIsSort`,
  `OrderBy.MissingIsHidden`.

`dafny verify dfyconfig.toml` checks the project.

## Model

| member | source | states |
|---|---|---|
| SegmentFormat.RecordsOfEncode | rust/nedb-v2/src/segment.rs:241-272 | parsing undoes writing: whatever follows them, framed records are read back whole and in order |
| SegmentFormat.FileSplits | rust/nedb-v2/src/segment.rs:241-272 | every byte string is its whole records, framed, and a torn tail that holds no whole record: records tile each file |
| SegmentFormat.CutParses | rust/nedb-v2/src/segment.rs:241-272 | a file cut at any byte parses to exactly the records that end before the cut, so a torn record is never misread |
| SegmentFormat.AppendRecord | rust/nedb-v2/src/segment.rs:405-411 | appending a frame to a file without a torn tail adds exactly that record and leaves no tail |
| SegmentFormat.TruncateTail | rust/nedb-v2/src/segment.rs:189-194 | cutting to the end of the last whole record keeps every record and leaves no tail |
| SegmentFormat.EntryReads | rust/nedb-v2/src/segment.rs:241-272 | the offset and length listed for a record read back that record's content |
| SegmentFormat.ScanSegment | rust/nedb-v2/src/segment.rs:241-272 | the scan loop returns the entries of exactly the whole records, and where they end |
| SegmentFormat.IdxRoundTrip | rust/nedb-v2/src/segment.rs:293-352 | loading undoes writing for all 32-byte hashes, 64-bit offsets and 32-bit lengths |
| SegmentFormat.IdxAccepts | rust/nedb-v2/src/segment.rs:318-352 | a sidecar that loads is byte for byte what is written for the entries it says, so nothing else is accepted |
| SegmentFormat.IdxLayout | rust/nedb-v2/src/segment.rs:280-314 | where the magic, the count, the hash, offset and length of each entry and the checksum stand in a sidecar |
| SegmentFormat.FrameLayout | rust/nedb-v2/src/segment.rs:405-411 | a record is its length in four bytes, the low one first, then the content |
| SegmentFormat.WriteIdx | rust/nedb-v2/src/segment.rs:293-314 | the write loop produces the magic, the count, the entries and the checksum of all that |
| SegmentFormat.ReadIdx | rust/nedb-v2/src/segment.rs:318-352 | the load loop accepts exactly the files of the right size, magic and checksum, and returns their entries |
| SegmentDisk.ColdStart | rust/nedb-v2/src/segment.rs:174-209 | whatever sidecars are missing or rejected, opening reads the same index as a scan of every segment |
| SegmentDisk.OpenReads | rust/nedb-v2/src/segment.rs:174-209 | a hash in the opened index reads back a content that is stored under it |
| SegmentDisk.ScanHolds | rust/nedb-v2/src/segment.rs:241-272 | the scanned index holds exactly the hashes of the stored contents |
| SegmentDisk.OpenRecovers | rust/nedb-v2/src/segment.rs:174-209 | opening a directory that is in order lists every stored hash, and each reads back the one content stored under it |
| SegmentDisk.CrashKeeps | rust/nedb-v2/src/segment.rs:189-194 | a crash that cuts files at or after their synced length and loses or spoils sidecars leaves a directory in order |
| SegmentSteps.SyncRunning | rust/nedb-v2/src/segment.rs:435-440 | a sync keeps the directory in order |
| SegmentSteps.SideRunning | rust/nedb-v2/src/segment.rs:389-392 | writing the sidecar of a synced segment keeps the directory in order, and the sidecar lists every record |
| SegmentSteps.NewRunning | rust/nedb-v2/src/segment.rs:393-401 | opening the next segment keeps the directory in order |
| SegmentSteps.AppendRunning | rust/nedb-v2/src/segment.rs:404-411 | appending a record of a new hash keeps the directory in order and the last file without a torn tail |
| SegmentRuns.CrashIsPrefix | rust/nedb-v2/src/segment.rs:151-237 | what a crash leaves is a prefix of the append order and holds all that was synced |
| SegmentRuns.OpenRunning | rust/nedb-v2/src/segment.rs:151-237 | opening what a crash left (truncating the tail, healing sidecars) yields a directory in use with the same records |
| SegmentRuns.HealingOk | rust/nedb-v2/src/segment.rs:196-207 | a directory in order stays so after every single sidecar that opening writes |
| SegmentRuns.PutStages | rust/nedb-v2/src/segment.rs:373-418 | each single write of a put, rollover included, leaves the directory in order; only the last one appends the record |
| SegmentRuns.CrashRecovers | rust/nedb-v2/src/segment.rs:151-237 | recovery from a crash in any state in use gives a prefix of the append order with everything durable |
| SegmentRuns.StepKeeps | rust/nedb-v2/src/segment.rs:373-440 | every put, sync and crash (idle or between two writes of a put) keeps the run in order; a crash recovers a prefix with all that preceded the last sync |
| SegmentRuns.EveryRunRecovers | rust/nedb-v2/src/segment.rs:151-440 | over every run from an empty store the directory is in order, its records are the accepted puts in order, and what precedes the last sync survives |
| SegmentCompaction.SafeListed | rust/nedb-v2/src/segment.rs:460-565 | a hash with a synced record that no sidecar hides is in the index whatever a crash leaves |
| SegmentCompaction.SafeReads | rust/nedb-v2/src/segment.rs:460-565 | ... and reads back its one content |
| SegmentCompaction.FirstWriteSafe | rust/nedb-v2/src/segment.rs:479-488 | exactly when a crash behind the first write of a compaction cannot lose a hash: a synced record stands in a segment whose left-over sidecar does not hide it |
| SegmentCompaction.CopyAppend | rust/nedb-v2/src/segment.rs:512-518 | copying one record keeps the old files as they were and the new ones whole |
| SegmentCompaction.CopyIndex | rust/nedb-v2/src/segment.rs:512-518 | copying one record adds exactly its location to the new index |
| SegmentCompaction.CopySeal | rust/nedb-v2/src/segment.rs:496-510 | sealing a new segment and opening the next passes only through directories in order |
| SegmentCompaction.CopyingSafe | rust/nedb-v2/src/segment.rs:491-519 | copying loses nothing that was safe |
| SegmentCompaction.RemoveKeeps | rust/nedb-v2/src/segment.rs:541-557 | deleting any one old file or sidecar keeps the new segments and their index |
| SegmentCompaction.DeletingSafe | rust/nedb-v2/src/segment.rs:541-557 | everything copied stays safe while the old files go, in any order |
| SegmentCompaction.DeletedAll | rust/nedb-v2/src/segment.rs:532-557 | with every old file gone the directory is in use and its scanned index is the index of the new segments |
| SegmentLifetimes.StageDiskOk | rust/nedb-v2/src/segment.rs:460-565 | if no sidecar was left over for the active segment, every stage of a compaction is a directory in order |
| SegmentLifetimes.StageDurable | rust/nedb-v2/src/segment.rs:460-565 | a live content that was durable before a compaction is durable at every stage of it |
| SegmentLifetimes.LifeStepKeeps | rust/nedb-v2/src/segment.rs:151-565 | puts, syncs, compactions and crashes anywhere in them, and again in the course of opening, keep the store in order with all it must not lose; a crash inside a compaction is followed only where no sidecar that hides a record was left over |
| SegmentLifetimes.CompactKeepsMust | rust/nedb-v2/src/segment.rs:460-565 | a completed compaction keeps every live content that had to be kept |
| SegmentLifetimes.EveryLifeReads | rust/nedb-v2/src/segment.rs:151-565 | over every life of a store, each content that must not be lost is listed and reads back after any next crash, and any further ones while it opens again |
| SegmentStale.EveryCompactionReads | rust/nedb-v2/src/segment.rs:460-565 | over every life, whatever stage the next compaction crashes at, a live content that must not be lost is listed and reads back, exactly if no left-over sidecar hides it; which is so whenever the active segment has no sidecar that hides a record |
| SegmentSealing.EntriesForSegment | rust/nedb-v2/src/segment.rs:356-362 | the filter over the index returns exactly its entries for one segment, in some order |
| SegmentSealing.SideFromIndex | rust/nedb-v2/src/segment.rs:389-392 | a sidecar written from the index lists exactly the records of the last segment |
| SegmentSealing.IndexReads | rust/nedb-v2/src/segment.rs:275-288 | every location in the index reads back a content of that hash |
| SegmentSealing.ReadChecks | rust/nedb-v2/src/segment.rs:275-288 | a content is handed out only if it has the hash asked for; bytes of another hash are reported as tampered with |
| SegmentOpening.SortedIds | rust/nedb-v2/src/segment.rs:156-169 | the segment numbers found are listed in ascending order, each once |
| SegmentOpening.ReadSealed | rust/nedb-v2/src/segment.rs:196-207 | a sealed segment is read from its sidecar if usable, else scanned and a sidecar written |
| SegmentOpening.Recover | rust/nedb-v2/src/segment.rs:151-219 | the open loop reads the index of all segments, heals the missing sidecars and truncates the torn tail, passing only through directories with some of the sidecars written |
| SegmentCopying.CopyLive | rust/nedb-v2/src/segment.rs:466-519 | the copy loop, in any order, puts exactly the live hashes into the new segments, packed by the cap, through directories of a compaction only |
| SegmentCopying.CopyOne | rust/nedb-v2/src/segment.rs:491-519 | one turn of the copy loop adds exactly one hash; it rolls over exactly when the new segment is not empty and the framed record would push it past the cap |
| SegmentPacking.PackedAppend | rust/nedb-v2/src/segment.rs:491-519 | a record that fits, or that starts a segment, keeps the new segments packed: each but the last was closed by a record that would have gone past the cap, and each is within the cap or holds one record |
| SegmentPacking.PackedRoll | rust/nedb-v2/src/segment.rs:491-511 | so does a record that does not fit and starts the next segment |
| SegmentCopying.FilledPacks | rust/nedb-v2/src/segment.rs:491-519 | one turn keeps the segments packed and adds four bytes and the length of the record |
| SegmentPacking.SmallIsOne | rust/nedb-v2/src/segment.rs:491-511 | packed segments that hold no more than the cap in all are one segment |
| SegmentCopying.DeleteOld | rust/nedb-v2/src/segment.rs:535-557 | the delete loop, in any order, removes every old file and no new one, and counts the bytes of the old segment files |
| SegmentCopying.CopiedWhole | rust/nedb-v2/src/segment.rs:491-519 | when the new index has every live hash, every live content is in the new segments |
| SegmentCopying.DoneReads | rust/nedb-v2/src/segment.rs:460-565 | after compaction a live hash reads back the bytes it read before |
| SegmentCopying.CompactFiles | rust/nedb-v2/src/segment.rs:460-565 | a whole compaction ends in use, with the old index restricted to the live set, the same contents, segments packed by the cap, and as many bytes as the live contents framed |
| SegmentStore.SegmentStore.Open | rust/nedb-v2/src/segment.rs:151-237 | opening: the index is read from sidecars and scans; on a directory in order the store is valid |
| SegmentStore.SegmentStore.Put | rust/nedb-v2/src/segment.rs:373-418 | a put of a stored hash changes nothing; any other passes through the writes of a put and adds exactly its location; the active segment changes exactly when it is not empty and the framed record would push it past the cap |
| SegmentStore.SegmentStore.RollOver | rust/nedb-v2/src/segment.rs:385-402 | the rollover branch: sync, write the sidecar from the index, open the next segment |
| SegmentStore.SegmentStore.Get | rust/nedb-v2/src/segment.rs:421-427 | a get finds a content exactly if it is stored under the hash; on a valid store it never reports tampering |
| SegmentStore.SegmentStore.Sync | rust/nedb-v2/src/segment.rs:435-440 | after a sync everything appended survives |
| SegmentStore.SegmentStore.Compact | rust/nedb-v2/src/segment.rs:460-565 | the index becomes the old one restricted to the live set, contents unchanged; the new segments are packed by the cap and hold exactly the live contents framed, so one segment is left if those fit in the cap; live and dropped add up to the number before, the bytes reclaimed are those of the old segment files, the segments left are numbered without a gap and counted; every directory on the way is a stage of a compaction |
| SegmentStale.CompactionCrashSafe | rust/nedb-v2/src/segment.rs:460-565 | exactly when a compaction is crash-safe for a live stored hash: a synced record stands in a segment whose sidecar does not hide it |
| SegmentStale.StaleSidecarLoses | rust/nedb-v2/src/segment.rs:389-401 | the safety promise fails on a run of puts, one crash between sidecar and next segment, and a sync: a crash behind the first write of a compaction then loses a synced record |
| OpLog.AppendKeepsValid | python/nedb/log.py:118-168 | append keeps the log numbered, chained, with strictly growing nonces per client, each idempotency key once, and tables that match |
| OpLog.OutcomeMeans | python/nedb/log.py:133-168 | when a request is a duplicate, stale or appended, said of the log alone |
| OpLog.RestartInvisible | python/nedb/log.py:170-182 | loading the ops after any run gives a log on which every continuation has the same outcomes, stays disciplined and verifies |
| OpLog.VerifiesPrefix | python/nedb/log.py:200-210 | every prefix of a verifying log verifies |
| OpLog.VerifiesMeans | python/nedb/log.py:200-210 | a log verifies exactly if every op stores the hash of the op before it (zeros for the first) and its own hash is that of the hex digits of it followed by the encoding of its body |
| OpLog.HeadCommits | python/nedb/log.py:145-210 | two logs that verify with one head are equal op for op, or their data holds a collision, a preimage of the genesis value or two bodies with one encoding |
| OpLog.Log.Append | python/nedb/log.py:118-168 | the method appends, deduplicates or refuses exactly as specified |
| OpLog.Log.Load | python/nedb/log.py:170-182 | the load loop rebuilds nonces, idempotency table and head from the ops |
| OpLog.Log.Verify | python/nedb/log.py:200-210 | the loop accepts exactly the unbroken chains |
| OpLog.Log.SliceUntil | python/nedb/log.py:216-217 | the slice holds the ops numbered at most the bound, in order |
| OpLog.UpToIsPrefix | python/nedb/log.py:216-217 | on a log numbered by position, as every run leaves it, that is the prefix up to and including the bound |
| InclusionProof.Fold | python/nedb/proof.py:58-67 | the loop computes the fold of the op hashes |
| InclusionProof.FoldSteps | python/nedb/proof.py:58-67 | each step hashes the head so far followed by the op hash, from a head of zeros |
| InclusionProof.Verify | python/nedb/proof.py:122-130 | the loop accepts exactly the proofs whose fold is the claimed head |
| InclusionProof.Serve | python/nedb/server.py:408-418 | every proof the server builds is accepted |
| InclusionProof.FoldBinds | python/nedb/proof.py:58-67 | two equally long folds with one result fold the same hashes from the same start, or a collision is exhibited |
| InclusionProof.ProofsAgree | python/nedb/proof.py:70-130 | of two accepted proofs with one head the shorter covers a suffix of what the longer covers, and its earlier head is the longer's fold there, or a collision is exhibited |
| InclusionProof.SeqIsNotBound | python/nedb/proof.py:99-102 | an accepted proof stays accepted under any other non-negative sequence number |
| InclusionProof.SeqIsRight | python/nedb/proof.py:70-130 | exactly when the number in a proof accepted against a log's head is right, up to collisions: when it and the number of hashes covered add up to the length of the log |
| MvccStore.SplitReads | python/nedb/store.py:38-44 | at a position that splits the chain at n the read is the version before it |
| MvccStore.PastIsKept | python/nedb/store.py:26-45 | a write younger than n changes no read at n |
| MvccStore.PresentIsHead | python/nedb/store.py:34-45 | a read no older than every version is a read at the head |
| MvccStore.BisectRight | rust/crates/nedb-core/src/store.rs:33-42 | the binary search returns how many entries are at most n |
| MvccStore.Store.Put | python/nedb/store.py:26-28 | put appends one version to its chain and keeps the two lists in step |
| MvccStore.Store.Delete | python/nedb/store.py:30-32 | delete appends a tombstone: the key reads as absent |
| MvccStore.Store.Get | python/nedb/store.py:34-45 | get is the newest version not younger than the point asked for |
| MvccStore.Store.Keys | python/nedb/store.py:47-69 | keys lists exactly the keys with the prefix that have a document, each once |
| RelationGraph.ExtendPast | python/nedb/relations.py:24-29 | linking later changes no neighbours of the past |
| RelationGraph.ClosePast | python/nedb/relations.py:31-37 | unlinking later changes no neighbours of the past |
| RelationGraph.LinkKeeps | python/nedb/relations.py:24-29 | link keeps forward and reverse lists mirroring, intervals disjoint, at most one edge open |
| RelationGraph.UnlinkKeeps | python/nedb/relations.py:31-37 | unlink keeps them too |
| RelationGraph.NeighboursDistinct | python/nedb/relations.py:40-55 | at no point in time is a neighbour listed twice |
| RelationGraph.SidesAgree | python/nedb/relations.py:51-55 | at every point in time neighbors and inbound name the same links |
| RelationGraph.Relations.Link | python/nedb/relations.py:24-29 | link adds one open edge on both sides unless one is open |
| RelationGraph.Relations.Unlink | python/nedb/relations.py:31-37 | unlink ends the open edge on both sides |
| RelationGraph.Relations.Neighbors | python/nedb/relations.py:40-52 | the live loop lists the nodes of the edges live at the point asked for, in order |
| RelationGraph.Relations.Inbound | python/nedb/relations.py:54-55 | the same for the reverse side |
| FieldIndexes.CoversOne | python/nedb/index.py:48-52 | an index covers the keys of exactly one collection when names have no dot |
| FieldIndexes.PrefixIsColl | python/nedb/store.py:62-69 | a scan prefix selects exactly the keys of its collection when names have no colon |
| FieldIndexes.RefileKeeps | python/nedb/index.py:48-80 | taking out the old version of a document and filing the new one keeps every index faithful |
| FieldIndexes.BackfillEnds | python/nedb/engine.py:538-546 | once every live key of the collection is filed the new index is faithful |
| FieldIndexes.Indexes.Add | python/nedb/index.py:48-61 | add files a document in every equality and full-text index of its collection |
| FieldIndexes.Indexes.Remove | python/nedb/index.py:63-80 | remove takes it out of every one |
| FieldIndexes.Indexes.EqLookup | python/nedb/index.py:82-83 | the keys filed under a value |
| FieldIndexes.Indexes.SearchLookup | python/nedb/index.py:85-86 | the keys filed under a token |
| FieldIndexes.Indexes.SearchFields | python/nedb/index.py:91-102 | the fields of a collection that have a full-text index |
| Engine.FoldOk | python/nedb/engine.py:31-59 | over every log the fold keeps ascending chains, disjoint intervals and mirrored sides |
| Engine.ViewMeans | python/nedb/engine.py:485-535 | the view at a point is what get, neighbors and inbound answer there |
| Engine.PastViewKept | python/nedb/engine.py:31-59 | no op changes what a reader at an earlier point sees |
| Engine.LaterOpsKeepPast | python/nedb/engine.py:31-59 | nor does any run of later ops, from any state |
| Engine.TimeTravel | python/nedb/engine.py:31-59 | time travel is prefix replay: for every log and every n the view at n is the head view after replaying the ops up to n |
| Engine.GetIsLastWrite | python/nedb/store.py:34-45 | a get at n answers what the last write of the key up to n left, said of the log alone |
| Engine.NeighborIsLastLink | python/nedb/relations.py:40-55 | at n a node is a neighbour, and inbound, exactly if the last op up to n on that edge is a link |
| Engine.WriteKeeps | python/nedb/engine.py:35-50 | every put and delete keeps the indexes faithful to the live documents |
| Engine.CreateKeeps | python/nedb/engine.py:538-546 | creating an index on a populated collection files every live document |
| Engine.EveryIndexFaithful | python/nedb/engine.py:31-48 | after puts, deletes and index creations in any order every index says exactly what the live documents say |
| Engine.ApplyOp | python/nedb/engine.py:31-55 | the fold of one op over the live structures, branch by branch |
| Engine.CreateEqIndex | python/nedb/engine.py:538-546 | the backfill loop files every live document of the collection, equality case |
| Engine.CreateSearchIndex | python/nedb/engine.py:538-546 | the same, full-text case |
| Query.ComparisonsFit | python/nedb/query.py:256-274 | of two values that can be ordered exactly one of <, = and > holds and the other operators follow; of two that cannot, only != can hold besides = |
| QueryMeaning.CompareNumbers | python/nedb/query.py:256-276 | on numbers each of the six operators is the comparison of the numbers |
| QueryMeaning.CompareStrings | python/nedb/query.py:256-276 | on strings < holds exactly if the first is a proper beginning of the second or is smaller where they first differ, and the others follow |
| QueryMeaning.CompareLists | python/nedb/query.py:256-276 | lists of sequence numbers compare the same way |
| QueryMeaning.ClausesMean | python/nedb/engine.py:587-598 | WHERE lets a document through exactly if every one of its clauses does |
| QueryMeaning.ClauseMeans | python/nedb/engine.py:587-598 | a clause compares the value a document has in the field, null if it has none |
| QueryMeaning.ScanMeans | python/nedb/engine.py:555-598 | a scan lists exactly the documents of its own collection that pass |
| QueryMeaning.SearchFinds | python/nedb/engine.py:565-598 | through full-text indexes a text is found in a document exactly if it has terms and each is a token of a string in some indexed field |
| Query.IndexedIsScan | python/nedb/engine.py:576-598 | exactly when rows through an equality index are the rows of the scan: unless the comparison is with null and a matching document lacks the field |
| TimeQueries.NullIsMissed | python/nedb/engine.py:576-598 | a run (index created, one document put) after which the query at that moment shows the document and the same query at the head, through the index asked for null, does not |
| TimeQueries.PastSearchIsScan | python/nedb/engine.py:565-574 | exactly when searches of the past list the rows of a scan of the past, for every text: each eligible document is filed now under the tokens it was filed under then |
| TimeQueries.PastSearchOnLog | python/nedb/engine.py:565-574 | the same said of the log: the last write of each eligible key up to n and its last write of all left the same tokens |
| TimeQueries.QuietSearches | python/nedb/engine.py:565-574 | when no op after n writes a key of the collection, every search at n lists the rows of a scan |
| TimeQueries.PastSearchMisses | python/nedb/engine.py:565-574 | a run (index created, a document put, then edited) after which a search at the first moment misses the row that the replayed prefix shows |
| Query.TraverseMeans | python/nedb/engine.py:610-622 | a traversal lists exactly the linked documents of the rows, each once |
| QueryMeaning.TraverseInOrder | python/nedb/engine.py:610-622 | a traversal goes through the rows, and the links of each, in order |
| Query.GroupsPartition | python/nedb/engine.py:699-724 | grouping: one group a value with exactly its rows in order, and the counts add up |
| QueryMeaning.GroupsInOrder | python/nedb/engine.py:704-708 | the groups are those of the values that occur, in the order in which they first do |
| QueryMeaning.GroupsOfShown | python/nedb/engine.py:687-726 | a plan that groups, groups the rows it shows without grouping |
| QueryMeaning.AggregatesMean | python/nedb/engine.py:712-724 | SUM adds from the left, AVG is sum and count, MIN is the least and MAX the greatest of the numbers of the group; over none, zero for SUM and nothing for the others |
| QueryMeaning.NumbersMean | python/nedb/engine.py:716 | the numbers aggregated are those the rows have in the field, in order |
| Query.ValidRowsMean | python/nedb/engine.py:690-695 | VALID AS OF keeps exactly the rows valid at the date |
| QueryMeaning.ValidMeans | python/nedb/engine.py:426-445 | a document is valid at a date that does not come before its start nor after its end, strings compared by their first difference |
| QueryMeaning.LimitMeans | python/nedb/engine.py:687-688 | LIMIT n keeps the first n rows, a negative n drops that many from the end |
| QueryMeaning.LimitThenValid | python/nedb/engine.py:610-698 | the limit is taken after the traversal and before the filter on valid time; rows come each once, with their documents |
| TimeQueries.QueryTimeTravel | python/nedb/engine.py:555-728 | time travel for executions: at n, whatever the indexes, a plan that searches no full-text index has the answers it has at the head of the replayed prefix with any equality indexes, unless one of those is asked for null while a matching document lacks the field; for plans that show the bare rows exactly then |
| TimeQueries.SearchTimeTravel | python/nedb/engine.py:565-574 | the same for searches through the full-text indexes, for every text, under the condition on tokens; for plans that show the bare rows exactly then |
| Query.TermCandidates | python/nedb/engine.py:569-573 | one term selects the union over the indexed fields |
| Query.SearchCandidates | python/nedb/engine.py:566-574 | a search selects the intersection over its terms, and nothing for a text without terms |
| Query.Candidates | python/nedb/engine.py:563-585 | filtered, the candidates of each of the three paths are the rows listed: of the scan, of the index, or of the past search |
| Query.HeadSearchIsScan | python/nedb/engine.py:565-598 | at the head, a search through the full-text indexes lists the rows of the scan |
| Query.Filter | python/nedb/engine.py:587-598 | the filter loop keeps exactly the candidates with a document that passes, each once |
| Query.Traverse | python/nedb/engine.py:610-622 | the nested loops compute the traversal |
| Query.GroupRows | python/nedb/engine.py:699-726 | the grouping loops compute the groups, counts and aggregates |
| Query.KeepValid | python/nedb/engine.py:690-695 | the valid-time filter keeps exactly the rows valid at the date, in order |
| Query.Execute | python/nedb/engine.py:555-728 | the whole execution: the rows kept are those of the scan (through an index, those with the field; in a past search, those found by the present text), finished by traversal, limit, valid time and grouping |
| Snapshot.RelationsRoundTrip | python/nedb/snapshot.py:96-101 | exactly when saving and loading keeps the forward lists: no source node has a bar in its name |
| Snapshot.BarIsLost | python/nedb/snapshot.py:189-191 | a saved link that comes back as another, because its source node has a bar |
| Snapshot.DeltaAgrees | python/nedb/engine.py:242-262 | ops after the checkpoint keep a loaded state in agreement with the replayed one from the checkpoint on |
| Snapshot.AgreeReads | python/nedb/engine.py:485-535 | states in agreement answer gets and neighbors alike and inbound as sets, at the head and at every point from the checkpoint on |
| Snapshot.LoadedAgrees | python/nedb/snapshot.py:176-199 | what is loaded agrees with what was saved from the checkpoint on |
| Snapshot.SnapshotRefinesReplay | python/nedb/engine.py:242-301 | loading a checkpoint and replaying the later ops refines full replay: documents, links, inbound sets and every index answer, at the head and from the checkpoint on |
| Snapshot.OpenRefinesReplay | python/nedb/snapshot.py:57-220 | saving at a checkpoint, opening from the snapshot and replaying the rest answers as a full replay does |
| Snapshot.SavedThenLoaded | python/nedb/snapshot.py:57-220 | what is saved at a checkpoint and loaded again is what the refinement needs |
| Snapshot.SaveStore | python/nedb/snapshot.py:83-93 | the save loop keeps the newest version of every key |
| Snapshot.SaveRels | python/nedb/snapshot.py:96-101 | the save loop writes every forward list under its joined name |
| Snapshot.LoadStore | python/nedb/snapshot.py:176-187 | the load loop restores one version a key and files every live document |
| Snapshot.LoadRels | python/nedb/snapshot.py:189-199 | the load loop restores the forward lists under the split names and reverse lists that mirror them |
| Snapshot.LoadDb | python/nedb/engine.py:242-262 | the whole load: configure, restore, and fold only the ops after the checkpoint, which alone fill the cause map |
| Trace.LeadsConverse | python/nedb/engine.py:624-685 | a citation walk one way is a walk of the cause map the other way |
| Trace.CauseMapMeans | python/nedb/engine.py:56-59 | the cause map is the citations the other way round |
| Trace.OpenKeepsCauses | python/nedb/engine.py:242-262 | a database opened from a snapshot has the cause map of the later ops alone; exactly when that loses nothing: no op up to the checkpoint cites a cause |
| Trace.NoteCauses | python/nedb/engine.py:56-59 | the loop that notes one op's citations |
| Trace.PutReads | python/nedb/engine.py:643-648 | reading a put's key at its own sequence number gives the document it wrote |
| Trace.StoredIsPut | python/nedb/engine.py:626-633 | every document a query returns is that of a put in the log, so a backward trace can start from any rows |
| Trace.TraceBack | python/nedb/engine.py:624-652 | on every log the backward loop terminates, also on cyclic citations, and lists exactly the puts led back to by one citation or more of the stored documents, each once, as written |
| Trace.TraceForward | python/nedb/engine.py:669-685 | on every log, at the head and AS OF a number, the forward loop terminates and lists, each once, exactly the ops whose key has a document there and that lead back to a start through such ops |
| Trace.LastWrite | python/nedb/engine.py:659-668 | the reverse scan finds the put that last wrote a key |
| Trace.TraceReverse | python/nedb/engine.py:653-685 | the whole forward trace of the rows of a query: starts found from their ids, then the traversal |
| Trace.StartIsOwn | python/nedb/engine.py:659-668 | exactly when a row leads to the last put of its own key: its id spells that key in the collection of the query |
| Trace.TracesConverse | python/nedb/engine.py:624-685 | row for row: a forward trace from a put lists the rows of exactly the puts whose own backward trace lists that put, where the direct citations reconcile |
| Trace.ConverseWhen | python/nedb/engine.py:624-685 | exactly when the traversals are converses: each direct citation one follows is spanned by citations the other follows |
| Trace.MirroredReconciles | python/nedb/engine.py:624-685 | ... which holds at the head of every log of puts whose documents mirror their provenance |
| Trace.PairConverse | python/nedb/engine.py:624-685 | for one start each way, the first finds the second exactly if the second finds the first, unless only another put of the second's key leads back |
| Trace.RewrittenRow | python/nedb/engine.py:669-685 | three puts for which only another put of the key leads back |
| Trace.HandWrittenCause | python/nedb/engine.py:447-475 | a document with a cause field of its own is followed backward and not forward |
| Database.DressedMeans | python/nedb/engine.py:447-475 | the logged document is the one handed in but for its id, its provenance and its valid time |
| Database.ProvenanceIsKept | python/nedb/engine.py:447-475 | the causes handed in are those the op cites and those the stored document tells |
| Database.ReplyMeans | python/nedb/engine.py:309-327 | how a write is answered, said of the log alone: known by its idempotency key, refused for a nonce its client has reached, or logged as a new op with the nonce given or picked |
| Database.PlainWriteAccepted | python/nedb/engine.py:392-396 | exactly when a write with neither nonce nor idempotency key is accepted: the table the nonces are picked from is not behind the log |
| Database.Database.Apply | python/nedb/engine.py:309-327 | one write: logged and folded if new, otherwise only the nonce table moves; indexes change by one step |
| Sequencer.NextKeeps | python/nedb/concurrent.py:156-196 | every step of every interleaving keeps the log the accepted writes in queue order, the state its fold, and woken writers served |
| Sequencer.EveryServerOk | python/nedb/concurrent.py:84-196 | in every interleaving of clients and committer the log is the sequential run of the queue, each accepted write once, and a woken writer's op is on disk and published |
| Sequencer.ServerOnlyGrows | python/nedb/concurrent.py:173-196 | the committed number only grows; nothing flushed, answered or logged is taken back |
| Sequencer.PinnedReads | python/nedb/concurrent.py:116-129 | snapshot isolation: a reader pinned to the committed number sees the replay of the ops committed then, at any later moment, mid-batch included |
| Sequencer.PinnedQueries | python/nedb/concurrent.py:116-120 | a plan pinned to the number committed at one moment and executed at any later one has the answers it has on a database that replayed the ops committed then, under the same condition on null; for plans that show the bare rows exactly then |
| Sequencer.PinnedSearches | python/nedb/concurrent.py:116-120 | the same for searches through the full-text indexes, under the condition on tokens |
| Sequencer.ReadYourWrites | python/nedb/concurrent.py:173-196 | once a writer is woken its op is on disk, in the log, and in every snapshot pinned from then on |
| Sequencer.BatchIsRun | python/nedb/concurrent.py:156-196 | a batch is a run of the protocol: drain, apply each, flush once, publish, wake each |
| Sequencer.AutoRun | python/nedb/engine.py:392-396 | over every run of writes that leave the nonce to the database, each without an idempotency key is accepted |
| Sequencer.IndexesServed | python/nedb/concurrent.py:173-209 | over every run of batches the indexes are exactly those asked for, each of the kind asked for, and each says what the live documents say |
| Sequencer.Sequencer.Drain | python/nedb/concurrent.py:160-169 | the drain loop takes the queued writes in order, up to the batch limit |
| Sequencer.Sequencer.CommitBatch | python/nedb/concurrent.py:173-196 | the committer's batch has exactly the effect of those steps, and leaves the structures as the writes and index creations answered so far, each taken as one step of a database, leave them |
| Sequencer.Sequencer.ApplyOne | python/nedb/concurrent.py:198-214 | dispatch of one write: an accepted write is one write step of the database, a create_index one that files every live document of the collection in the index named, of the kind named, and any other changes nothing but the nonces |
| Sequencer.Sequencer.Query | python/nedb/concurrent.py:116-120 | after any batches a query pinned to the committed number may be executed and answers as Query.Execute says |
| Merkle.BuildLevel | python/nedb/merkle.py:32-36 | the inner loop pairs neighbours and doubles an odd last node |
| Merkle.MerkleRoot | python/nedb/merkle.py:27-38 | the loop computes the root, zeros for no leaves |
| Merkle.SmallRoots | python/nedb/merkle.py:17-38 | the roots of none to three leaves written out: zeros, the leaf, the hash of the left one followed by the right, an odd last one paired with itself |
| Merkle.SmallProofs | python/nedb/merkle.py:41-66 | a sibling on the right is hashed behind, one on the left in front |
| Merkle.MerkleProof | python/nedb/merkle.py:41-58 | the loop computes the path of an index |
| Merkle.MerkleVerify | python/nedb/merkle.py:61-66 | the loop accepts exactly the paths that climb to the root |
| Merkle.ProofVerifies | python/nedb/merkle.py:41-66 | for every leaf list and index the generated proof verifies |
| Merkle.ProofLength | python/nedb/merkle.py:41-58 | a proof has length ceil(log2 n) |
| Merkle.ProofBinds | python/nedb/merkle.py:61-66 | two accepted proofs with one side sequence and root carry the same leaf and siblings, or a collision is exhibited |
| Merkle.RootBinds | python/nedb/merkle.py:27-38 | equal-length leaf lists with one root are equal, or a collision is exhibited |
| Merkle.LengthsAreNotBound | python/nedb/merkle.py:33-36 | a list and the list with its odd last leaf doubled share a root |
| Merkle.CompleteKeepsRoot | python/nedb/merkle.py:27-38 | filling the last level by the doubling rule keeps the root |
| Merkle.SharedRoots | python/nedb/merkle.py:27-38 | exactly when leaf lists of any two depths share a root, up to collisions: the deeper one, raised to the depth of the other, has the same filling |
| Merkle.LevelsShareRoot | python/nedb/merkle.py:27-38 | any level of the tree, taken for leaves, has the root of the tree |
| Cascade.FindCut | python/nedb/cascade.py:45-54 | the rolling loop ends at the least position, 2048 bytes or more from the start, where the low thirteen bits of the rolling sum are zero, or, if there is none before, at 65536 bytes or the end of the data |
| Cascade.Chunk | python/nedb/cascade.py:40-57 | the outer loop computes the chunk list, every chunk of it ending there |
| Cascade.RolledIsSum | python/nedb/cascade.py:50-51 | the rolling hash is the sum of 2^(pos - 1 - k) times the word of byte k, in 64 bits |
| Cascade.WellCutIsUnique | python/nedb/cascade.py:40-57 | there is one way to cut so that every chunk ends there, so bytes and words alone decide the chunks |
| Cascade.ChunksFlatten | python/nedb/cascade.py:40-57 | chunks concatenate to the input |
| Cascade.ChunkSizes | python/nedb/cascade.py:33-57 | every chunk but the last is between the minimum and the maximum, the last at most the maximum |
| Cascade.ChunksRestart | python/nedb/cascade.py:43-56 | chunking restarts identically at any boundary |
| Cascade.PrefixLocal | python/nedb/cascade.py:40-57 | chunks that end inside a common prefix agree, save a final one |
| Cascade.EditLocality | python/nedb/cascade.py:40-57 | replacing the middle keeps the chunks that end before it and everything after the first common boundary |
| Cascade.WindowDecides | python/nedb/cascade.py:50-52 | two 64-bit rolling sums over the same last thirteen bytes agree on the low thirteen bits |
| Cascade.CutTestSeesThirteenBytes | python/nedb/cascade.py:50-52 | the cut test depends on the last thirteen bytes alone |
| BlobStore.DedupAccounts | python/nedb/cascade.py:97-110 | unique chunks plus dedup hits equals the total length of all recipes |
| BlobStore.EveryVersionReadsBack | python/nedb/cascade.py:97-117 | after any uploads every version reads back byte for byte, or two stored chunks collide |
| BlobStore.VersionIsUpload | python/nedb/cascade.py:97-117 | the n-th version of a name is its n-th upload |
| BlobStore.FilesMean | python/nedb/cascade.py:97-110 | under each name the table lists the recipes and the Merkle roots of its uploads, in order |
| BlobStore.LogicalIsAll | python/nedb/cascade.py:97-110 | the logical size counts every uploaded byte |
| BlobStore.Store.PutFile | python/nedb/cascade.py:97-110 | the upload loop extends the chunk table, the counters and the version list as specified |
| BlobStore.Store.GetFile | python/nedb/cascade.py:112-117 | the read loop returns the upload of that version |
| BlobStore.RootOfShortFile | python/nedb/cascade.py:97-110 | every file of two chunks or more shares its root with a file of 64 bytes, the two children of its root side by side |
| GraphStore.OrderIsReachable | rust/nedb-v2/src/graph.rs:88-120 | the full traversal lists exactly the reachable nodes, none twice |
| GraphStore.OrderIsByDistance | rust/nedb-v2/src/graph.rs:88-120 | in nondecreasing distance from the start |
| GraphStore.Store.AddEdge | rust/nedb-v2/src/graph.rs:49-62 | the edge is added, and adding it again would change nothing |
| GraphStore.Store.Trace | rust/nedb-v2/src/graph.rs:88-120 | the loop terminates and returns the first `limit` nodes of the full traversal |
| GraphStore.Store.RecordCauses | rust/nedb-v2/src/db.rs:224-228 | a put writes each causal edge both ways |
| GraphStore.PutsMirror | rust/nedb-v2/src/db.rs:224-228 | over every run of puts the reverse edges are the converse of the forward ones |
| GraphStore.CausesAreListed | rust/nedb-v2/src/db.rs:224-228 | after any puts an edge caused_by leads from x to y exactly if some put of x lists y as a cause, and caused_by_rev from y to x |
| GraphStore.ReverseTraceIsConverse | rust/nedb-v2/src/graph.rs:104-108 | the reverse trace is the trace of the converse graph |
| Walks.ReachesConverse | rust/nedb-v2/src/graph.rs:104-108 | reachability in the converse relation is reachability the other way |
| VersionChain.PutsDescend | rust/nedb-v2/src/db.rs:172-235 | over every run of puts sequence numbers strictly fall along prev |
| VersionChain.IndexMeans | rust/nedb-v2/src/db.rs:212-213 | the id index points at the newest version |
| VersionChain.BackFinds | rust/nedb-v2/src/db.rs:434-444 | the walk from a version reaches the newest one not younger than the target, or the hash collided |
| VersionChain.AsOfIsNewest | rust/nedb-v2/src/db.rs:434-444 | get_as_of returns exactly the newest version not younger than the target, or none, or the hash collided |
| VersionChain.NodeMeans | rust/nedb-v2/src/db.rs:172-212 | the object a write stores has its collection, id and data, its own number, and a previous version exactly if the id was written before |
| VersionChain.AsOfReturnsWrite | rust/nedb-v2/src/db.rs:434-444 | what get_as_of returns is the newest write up to the target: its collection, id and data under its own number |
| VersionChain.Db.Put | rust/nedb-v2/src/db.rs:172-235 | put bumps the sequence, links the previous version and moves the id index |
| VersionChain.Db.GetAsOf | rust/nedb-v2/src/db.rs:434-444 | the walking loop terminates and computes the specified walk |
| OrderedValue.CmpOrder | rust/crates/nedb-core/src/index.rs:76-111 | the comparison is antisymmetric up to its classes, the NaN case included |
| OrderedValue.LeqTransitive | rust/crates/nedb-core/src/index.rs:76-111 | and transitive |
| OrderedValue.CmpIsTotalPreorder | rust/crates/nedb-core/src/index.rs:76-111 | so it is a total preorder |
| OrderedValue.CmpMeans | rust/crates/nedb-core/src/index.rs:51-111 | which way it runs: null, false, true, numbers by size, NaN above them, strings by their first difference, arrays, objects |
| SortedIndex.InsertKeeps | rust/crates/nedb-core/src/index.rs:179-192 | inserting keeps buckets and reverse map in agreement, each key in exactly one nonempty bucket |
| SortedIndex.DropKeeps | rust/crates/nedb-core/src/index.rs:216-225 | so does removing |
| SortedIndex.Index.Add | rust/crates/nedb-core/src/index.rs:163-201 | add replaces the key's entry |
| SortedIndex.Index.Remove | rust/crates/nedb-core/src/index.rs:203-236 | remove drops it |
| SortedIndex.Index.TopK | rust/crates/nedb-core/src/index.rs:268-289 | the loops return the first `limit` keys of the walk, ascending or descending |
| SortedIndex.Index.All | rust/crates/nedb-core/src/index.rs:293-308 | the loop without a limit returns the whole walk |
| SortedIndex.InsertsLast | rust/crates/nedb-core/src/index.rs:179-192 | among equal values the key filed last stands last |
| SortedIndex.TiesInOrder | rust/crates/nedb-core/src/index.rs:265-289 | keys of equal value are walked in the order they were filed, ascending or descending |
| OrderBy.AllKeysSorted | rust/crates/nedb-core/src/index.rs:293-308 | the walk lists the indexed keys in order of their values |
| OrderBy.SortedListingsAgree | rust/crates/nedb-core/src/lib.rs:351-357 | any two sorted listings show the same sequence of values |
| OrderBy.SortedRunsRight | rust/crates/nedb-core/src/lib.rs:351-357 | in a sorted listing numbers go up and strings go up by their first difference, both down with DESC |
| OrderBy.FastPathIsSort | rust/crates/nedb-core/src/lib.rs:329-383 | exactly when the top-k path shows the values of the slow sort cut to k: every live document has the field, or the limit stops before the ones that lack it would show |
| OrderBy.FullWalkIsSort | rust/crates/nedb-core/src/lib.rs:335-348 | without a limit, exactly when the walk shows the values of the slow sort: every live document has the field |
| OrderBy.MissingIsHidden | rust/crates/nedb-core/src/lib.rs:335-348 | a run: one document without the field is put, the sort shows it and the top-k path shows nothing |
| OrderBy.Collection.OrderedRows | rust/crates/nedb-core/src/lib.rs:329-348 | the fast path of execute: at most limit live documents that have the field; their numbers and strings go up, with DESC down, and none left out belongs before one that is shown |
| OrderBy.Collection.AllRows | rust/crates/nedb-core/src/lib.rs:329-348 | the path without a limit lists each live document that has the field once, in order: numbers and strings go up, with DESC down |

## Left out

- Servers, clients, the command line, query-text parsing, the SQL, Mongo and Redis adapters: plumbing around the modelled core.
- Encryption, compression and the hash function itself: parameters; a blob codec is assumed to decompress what it compressed.
- Time-to-live, wall-clock timestamps and lazy expiry: a document is live until it is deleted.
- Failed flushes and syncs, and file systems that lose a created file: a sync is taken to succeed.
- Contents of 2^32 bytes and more, segment numbers beyond 32 bits, and sidecar counts whose size overflows 64 bits: the length prefix, the number and the size are modelled unbounded.
- A crash of the process alone followed by a loss of power: what is on disk after a crash is taken to be durable.
- A crash in the course of opening, for the order of the records: SegmentRuns.EveryRunRecovers takes opening as one step; SegmentLifetimes.EveryLifeReads does not.
- Compactions that return an error without a crash.
- SegmentStore.SegmentStore.Put: assumes, as the source asks of its callers, that the hash given is the hash of the content.
- SegmentLifetimes.LifeStepKeeps: does not go on after a crash inside a compaction that began with a left-over sidecar hiding a record; that is the failing case, whose exact condition is SegmentStale.EveryCompactionReads.
- ORDER BY and the ordered index of the Python engine: the index gains duplicates when a second index is created; order is proved for the sorted index of nedb-core instead.
- Floating-point numbers and booleans in documents: numbers are integers, and a NaN case stands beside the reals in OrderedValue; equality across Python's numeric types is not modelled.
- Lists as indexed or grouped values: Python raises an error there because a list cannot be a key; the model files them like any value.
- Query.KeepValid: a `_valid_from` or `_valid_to` that is not a string passes, where Python would raise an error.
- Query.Execute: plans without ORDER BY and TRACE, which have modules of their own, and collection names without a dot or a colon, as query text spells them; with such a name an index of one collection may cover another.
- Sequencer.Sequencer.Query: for such collection names only, and such index names before it.
- Trace.TraceBack: which rows, each once, and what they hold; not their order.
- Trace.TraceForward: likewise not the order of the rows.
- Query.GroupRows: an average of integers is kept as total and count.
- TimeQueries.QueryTimeTravel: plans without ORDER BY and TRACE.
- Database.DressedMeans: leaves out evidence, confidence and the expiry time.
- Database.Database.Apply: of the log file, only how many ops are on disk.
- Snapshot.SnapshotRefinesReplay: says nothing of the cause map (Trace.OpenKeepsCauses does), and takes the index configuration as unchanged since the checkpoint, since the snapshot path does not read it again.
- Blob stores inside snapshots, and the nonce and idempotency tables a snapshot carries: the load of the log overwrites the tables with those of the ops (OpLog.RestartInvisible).
- Snapshot.LoadDb: without the nonce and blob parts of the load.
- Self-repair of a broken log file, and self-healing of a chain, which drops provenance fields.
- Sequencer.Sequencer.CommitBatch: a batch drains what is queued when it starts; Sequencer.NextKeeps allows any batch size and any interleaving.
- Interleavings inside one applied op, and writes that race with closing the sequencer: an op is one step.
- VersionChain.AsOfIsNewest: for ids written by put alone; deletion, compaction and put_batch cut the chain.
- Manifest, cold-scan sequence numbers, id-index flushing and ORDER BY of the v2 database after put_batch or delete.
- AS OF queries of nedb-core, which enumerate the keys of the head; query time travel is proved for the Python engine.
