# A verified model of malcom's import, diff and fetch cores

malcom turns a cosmos-sdk state-sync snapshot, a post-order stream of IAVL nodes, into a node database. This project
models its four hard parts and proves what they promise. `dafny verify dfyconfig.toml` checks everything.

1. **The importer of one store** (`Bytes`, `IavlEncoding`, `IavlTree`, `NonceCache`, `StoreImporter`, `ReadBack`, and
   the `Wave*` modules). The class `StoreImporter.Importer` is the sequential stack machine. It is proved against
   `IavlTree`, which says what forest a stream lists and which entries an import must leave, and `ReadBack` shows that a
   daemon that loads the result gets exactly the tree of the stream. The wave-parallel importer is a step system with a
   program counter for main, the dispatcher, every worker and the writer; each atomic operation, lock section and
   channel operation is one step. The main theorem, `WaveRefinement.WaveRefinesSequential` with `MaximalRunsEnd`, says
   that for every stream every schedule ends with the hash of the sequential importer, or rejects where it rejects, and
   with its database, up to the bytes under keys that several nodes have.
2. **The leaf diff and its applier** (`Proto`, `LeafDiff`, `LeafApply`, `DiffStream`, `SnapshotDiff`, `SnapshotVerify`,
   `SnapshotDelta`, `ExtensionDiff`, `SnapshotRoundTrip`). The differ compares whole records, whose order is not key
   order. Where it is, the changes are exactly the difference of the two sides; where it is not, a changed value may
   come as an insert and a delete (`LeafApply.MergeIsExact` and `ChangedComesTwice`). For every comparison that is zero
   only on equal records, applying its changes to the base gives the target's keys and values in order, and the rebuilt
   snapshot verifies as equivalent.
3. **The chunk ring, the streaming hand-off and the import by segments** (`ChunkRing`, `PinHandoff`, `IndexScanner`,
   `SegmentIndex`, `SnapReader`, `SnapStream`, `SnapshotImport`, `Segmentation`, `SegmentDecode`, `SegmentedImport`,
   `Interleaving`). The ring is exact and bounded, and with a reader it is never stuck; a store's reader can always be
   opened at the store's start; the index tiles the stream. The main theorem is `SegmentedImport.ImportByIndex`: cutting
   the bytes of a snapshot by the index, decoding each segment and importing the segments in any order is importing the
   whole stream in one pass. `Interleaving.ImportAtOnce` says the same of workers at once, whose calls arrive in any
   interleaving.
4. **The chunk scheduler, the height walk and the app hash** (`ChunkScheduler`, `HeightWalk`, `CommitInfo`, `AppHash`,
   `CommitRecord`). No chunk is lost whatever peers do, the walk ends, and the app hash depends on the stores and not on
   their order. `CommitRecord.SameAppHash` follows a snapshot from its bytes through either import, the commit-info
   record and the verifier's parser to the app hash, which is the same.

SHA-256 is a function parameter of which only the digest length is known; where a statement needs it, it is assumed not
to collide on the strings that occur in that statement. The database, the chunk directory and the decompressed stream
are a map, a map and a byte string. Values keep the program's widths: versions and sizes are signed 64-bit, heights
signed 8-bit, nonces unsigned 32-bit, with wrap-around written out.

Objects that the program updates in place are classes here, and loops that it writes as loops are loops. Each is proved
against a function on values, and the lemmas are about that function. Inside a module a proof may `hide` definitions
that it does not need.

Places where code and expectation part. Each has its condition, and an input or a run that shows it:

- The nonce cache takes version 0 for an empty cache (`internal/snapshotimport/importer.go:231-248`). The nonces are
  distinct and start at 2 exactly when the nodes of version 0 are consecutive and none is first:
  `NonceCache.DistinctIff` and `VersionZeroFails`. The importers take version 0 like any other; only statements that
  need different nodes to have different keys ask for distinct nonces. Where nodes share a key, the parallel importer
  leaves the bytes of one of them, as the sequential one does.
- The comment at `internal/snapshotimport/importer_par.go:367-371` says that only the root writes `rootEncoded`. A
  worker writes it exactly when main has not linked its frame yet: `WaveRuns.WritesRootIff` and `NonRootWrites`. The
  root is the last to write it in every run: `WaveRuns.LastWriteIsRoot`.
- Without readers nothing is evicted. So stage 1 is stuck when all stores are done and more than `maxBytes` of the
  stream is left past head: `PinHandoff.Pipeline.WriteRest` and `PinHandoff.LongTailBlocks`. While no worker moves, a
  Write ends exactly when what it is to reach fits behind head; with all opened stores finished and the next one not yet
  reached, a longer one waits for ever: `PinHandoff.Pipeline.WriteUpTo` and `PinHandoff.NextStoreBlocks`. While a store
  is active, and items fit the ring with one chunk to spare, some step can be taken: `PinHandoff.Pipeline.SomeStep`.
- A worker whose reader is given its end limit late may hold the beginning of the item behind its segment, and then ends
  with a read error instead of cleanly. At the limit, without a whole item, it ends cleanly exactly when it has pulled
  nothing past its segment: `PinHandoff.Pipeline.AtTheEnd` and `PinHandoff.LateEndCuts`.
- The indexer's varints may have more than 64 bits, and those are the ones that the item reader refuses:
  `IndexScanner.ScanAgrees` and `OverlongScans`.
- A jump may leave the height window at the top. The searches stay in the window exactly when no jump goes above it, and
  nothing is accepted there: `HeightWalk.SearchesStayInWindowIff` and `JumpLeavesWindow`. A search in the window jumps
  out of it exactly when it receives an offer above the maximum: `HeightWalk.JumpsOverIff`.
- The parser of a store info does not compare a name's length with its input. It agrees with a parser that does exactly
  when every name fits; otherwise it takes foreign bytes or panics: `CommitInfo.NamesFitIff` and `LongNames`.
- `perPeer` does not bound a peer's requests by itself (`internal/snapfetch/download.go:761-811`). While every reply is
  to a request that is still in flight to its sender, no run takes a peer above `perPeer` exactly when the probe budget
  is below it, and no proven peer exceeds it exactly when the budget is not above it:
  `ChunkScheduler.Scheduler.PeerCeiling` is one half, `ChunkScheduler.ProbesExceed` and `PromotedExceeds` are the other,
  for all values of both limits. Any other reply, most often a late one to a request that has timed out, lowers the
  peer's load all the same and raises its ceiling by at most one; `ChunkScheduler.UnaskedReply` exceeds `perPeer` by one
  such reply at every smaller budget. The defaults are a `perPeer` of 2 and a budget of 1.

## Model

| member | source | states |
|---|---|---|
| Bytes.UvarintRoundTrip | internal/snapshotimport/iavlenc.go:87-91 | a 64-bit varint is read back, with its length, whatever follows it |
| Bytes.GetVarintRoundTrip | internal/snapshotimport/iavlenc.go:95-101 | a zigzag varint of any signed 64-bit value is read back |
| Bytes.GetBytesRoundTrip | internal/snapshotimport/iavlenc.go:105-108 | a length-prefixed string is read back, with the rest of the input |
| IavlEncoding.NodeKeyInjective | internal/snapshotimport/iavlenc.go:56-64 | two node keys of a store are equal only when version and nonce are |
| IavlEncoding.NodeKeyReads | internal/snapshotimport/iavlenc.go:56-64 | a node key reads as prefix, the letter s, the version in eight bytes and the nonce in four, both big-endian |
| IavlEncoding.KeySpacesDisjoint | internal/snapshotimport/iavlenc.go:56-82 | node, fast-storage and metadata entries never share a key: s, f or m follows the prefix |
| IavlEncoding.EncodeLeafNodeInto | internal/snapshotimport/iavlenc.go:165-171 | appends the leaf's stored bytes to the caller's buffer |
| IavlEncoding.EncodeInnerNodeInto | internal/snapshotimport/iavlenc.go:191-205 | appends the inner node's stored bytes to the caller's buffer |
| IavlEncoding.DecodeLeaf | internal/snapshotimport/iavlenc.go:165-171 | the daemon's reader gets key and value back from a stored leaf, with nothing left over |
| IavlEncoding.DecodeInner | internal/snapshotimport/iavlenc.go:184-205 | the daemon's reader gets all eight fields back from a stored inner node |
| IavlEncoding.LeafHashCovers | internal/snapshotimport/iavlenc.go:127-136 | a leaf's hash is that of a string that reads as height 0, size 1, version, key and the value's hash, with nothing left over |
| IavlEncoding.InnerHashCovers | internal/snapshotimport/iavlenc.go:146-154 | an inner node's hash is that of a string that reads as height, size, version, the left hash and then the right hash, with nothing left over |
| IavlEncoding.FastReads | internal/snapshotimport/importer.go:152-157 | the daemon's reader gets version and value back from a fast-storage entry |
| IavlEncoding.NodeBytesAreNoRedirect | internal/snapshotimport/iavlenc.go:165-205 | stored node bytes never begin with the redirect's tag byte |
| NonceCache.NonceIs | internal/snapshotimport/importer.go:231-248 | the nonce of every item of any stream: other versions count on from 2, version 0 starts again with each run |
| NonceCache.DistinctIff | internal/snapshotimport/importer.go:231-248 | version and nonce identify every node, with nonces from 2, exactly when version-0 nodes are consecutive and not first |
| NonceCache.VersionZeroFails | internal/snapshotimport/importer.go:231-248 | a stream that begins with version 0 hands out nonce 1, and in the versions 5, 0, 5, 0 both zeros get nonce 2 |
| IavlTree.ParseBelowTop | internal/snapshotimport/importer.go:125-220 | below the tree on top of the stack lies the forest of the items before that tree's first item |
| IavlTree.Children | internal/snapshotimport/importer.go:182-186 | the two frames that an inner item pops are the roots of its left and right subtrees in the stream |
| IavlTree.NoncesUnique | internal/snapshotimport/importer.go:222-248 | where the nonces are distinct, an earlier and a later node never share version and nonce, and none has the root's nonce 1 |
| IavlTree.WrapIs | internal/snapshotimport/importer.go:186 | a stored size is the leaf count when that fits 64 bits, and congruent to it modulo 2^64 otherwise |
| IavlTree.RootHashIsMerkle | internal/snapshotimport/iavlenc.go:127-154 | the recursive hash covers, at every node of the tree, what a hash of that node must cover |
| IavlTree.DecimalReads | internal/snapshotimport/commitinfo.go:62-66 | the decimal digits of a version read back as that version |
| StoreImporter.Importer.NextNonce | internal/snapshotimport/importer.go:231-248 | the cached counter makes the move of the specification, for every version and state of the cache |
| StoreImporter.Importer.ClosesPairAgrees | internal/snapshotimport/importer.go:214-220 | the test on the two top frames is the test on the two top trees |
| StoreImporter.Importer.AddNode | internal/snapshotimport/importer.go:125-209 | accepts an item exactly when the stream stays a listing of trees; then it adds exactly that item's entries, otherwise it changes nothing |
| StoreImporter.Importer.AddLeaf | internal/snapshotimport/importer.go:138-168 | a leaf adds its node and fast-storage entries; its frame's hash covers version, key and value hash, and the stack describes the longer stream |
| StoreImporter.Importer.AddInner | internal/snapshotimport/importer.go:170-208 | an inner item replaces two frames by their parent, whose hash covers height, summed size, version and the hashes of the lower and then the upper frame, and adds the parent's entry |
| StoreImporter.Importer.Finalize | internal/snapshotimport/importer.go:271-352 | succeeds exactly on at most one tree; returns a hash that covers the tree node by node, and writes canonical root, redirect and marker, and nothing on failure |
| StoreImporter.Importer.WriteStorageVersionMarker | internal/snapshotimport/importer.go:364-372 | writes the fast-storage marker of the snapshot height |
| StoreImporter.WrapAdds | internal/snapshotimport/importer.go:186 | the 64-bit sum of two wrapped leaf counts is the wrapped leaf count |
| IavlTree.StoreApplies | internal/snapshotimport/importer.go:125-352 | the calls of set and setFast for a store, made in order, leave the database of the finished store |
| ReadBack.ParseIffListing | internal/snapshotimport/importer.go:125-220 | a stream leaves a forest exactly when all its trees descend in height and the stream is their post-order listing |
| ReadBack.OneTreeIffPostorder | internal/snapshotimport/importer.go:125-220 | one tree is left exactly by its own post-order listing, so the tree is unique |
| ReadBack.BlankParses | internal/snapshotimport/importer.go:170-208 | value fields of inner items make no difference |
| ReadBack.ImportHolds | internal/snapshotimport/importer.go:125-209 | after an import every node of the stream is stored under its key |
| ReadBack.RedirectRoundTrip | internal/snapshotimport/importer.go:320-345 | a redirect names the root's version and nonce 1 |
| ReadBack.RootIsNoRedirect | internal/snapshotimport/importer.go:302-345 | the canonical root cannot be taken for a redirect |
| ReadBack.StoreReadsBack | internal/snapshotimport/importer.go:271-352 | loading the snapshot height of a finished store, through a redirect if there is one, gives exactly the stream's tree, whatever the database held before |
| ReadBack.EmptyReadsBack | internal/snapshotimport/importer.go:278-294 | an empty store loads as an empty store |
| ReadBack.FastEntryIsLatest | internal/snapshotimport/importer.go:152-157 | the fast entry of a user key is that of its latest leaf |
| ReadBack.FastReadsLatest | internal/snapshotimport/importer.go:152-157 | the daemon reads version and value of a key's latest leaf from its fast entry |
| ReadBack.MarkerReads | internal/snapshotimport/importer.go:364-372 | the marker reads as 1.1.0- and the snapshot height |
| WavePlan.PlanOk | internal/snapshotimport/importer_par.go:201-256 | every stream has a plan: each item's children, interval, hash and bytes, with parents and children pointing at each other and node keys apart from fast keys |
| WavePlan.DistinctApart | internal/snapshotimport/iavlenc.go:56-64 | distinct nonces keep all node keys apart |
| WaveSafety.StepSafe | internal/snapshotimport/importer_par.go:161-444 | every enabled step of main, dispatcher, worker or writer keeps the invariant |
| WaveSafety.RunSafe | internal/snapshotimport/importer_par.go:161-494 | the invariant holds in the state that any schedule leads to |
| WaveSafety.Drained | internal/snapshotimport/importer_par.go:413-427 | a zero wait-group after the last item means that every frame has been hashed and written |
| WaveResults.SubtreeFired | internal/snapshotimport/importer_par.go:399-409 | when a frame has been submitted, every worker in its subtree is past its event |
| WaveResults.HashIsPlanned | internal/snapshotimport/importer_par.go:334-352 | a worker computes the recursive hash and the sequential importer's bytes, since both children are hashed by then |
| WaveResults.WriteRootInOrder | internal/snapshotimport/importer_par.go:366-375 | a write of rootEncoded keeps it so that the root's bytes are there once the root has passed its write |
| WaveResults.StoredWriter | internal/snapshotimport/importer_par.go:366-376 | draining a write entry leaves every written frame's key with an entry of a frame of that key |
| WaveProgress.NeverStuck | internal/snapshotimport/importer_par.go:276-329 | in every unfinished reachable state some thread can step, with any positive capacities and with main blocked at pendingCap |
| WaveProgress.StepSpends | internal/snapshotimport/importer_par.go:161-494 | a measure of the steps that are left goes down with every step |
| WaveProgress.RunsAreFinite | internal/snapshotimport/importer_par.go:161-494 | no schedule is longer than 60 steps an item plus one a worker plus 9 |
| WaveRuns.AtMostOnce | internal/snapshotimport/importer_par.go:276-290 | over any run a frame is submitted at most once and its worker takes each step at most once, so it is hashed, written and counted once |
| WaveRuns.WritesRootIff | internal/snapshotimport/importer_par.go:366-375 | in every reachable state, a worker at the parent test goes on to write rootEncoded exactly when main has not linked its frame |
| WaveRuns.NonRootWrites | internal/snapshotimport/importer_par.go:366-375 | a run of three items in which the first leaf, which is not the root, writes rootEncoded |
| WaveRuns.LastWriteIsRoot | internal/snapshotimport/importer_par.go:451-494 | in every run that comes to finalize one tree, the last to write rootEncoded was the root, and the bytes are the root's |
| WaveRuns.WithinCaps | internal/snapshotimport/importer_par.go:295-376 | in every reachable state the ready channel and the write queue are within their capacities |
| WaveRuns.MainWaitsForRoom | internal/snapshotimport/importer_par.go:276-290 | in every run, the step with which main submits a frame finds fewer than pendingCap frames pending |
| WaveRefinement.NeverYounger | internal/snapshotimport/importer_par.go:276-290 | no step of any thread takes a frame back to an earlier point of its life |
| WaveRefinement.SubmittedAfterChildren | internal/snapshotimport/importer_par.go:224-243 | an inner frame that has been submitted has two hashed children |
| WaveRefinement.NoLostWakeUp | internal/snapshotimport/importer_par.go:231-243 | a built inner frame that waits for no child and is not submitted is about to be submitted by main or by a child's worker |
| WaveRefinement.AllWritten | internal/snapshotimport/importer_par.go:418-444 | when the workers are done and the write queue is empty, the database is that of the sequential import, but that under a key that several nodes have it may hold another one's bytes |
| WaveRefinement.AlikeIsEqual | internal/snapshotimport/importer_par.go:418-444 | with pairwise different keys that leaves no difference |
| WaveRefinement.FinalizeAgrees | internal/snapshotimport/importer_par.go:451-494 | the parallel finalize returns and writes what the sequential one does |
| WaveRefinement.ReturnedIsLast | internal/snapshotimport/importer_par.go:418-444 | when main returns, no thread has a step left |
| WaveRefinement.WaveRefinesSequential | internal/snapshotimport/importer_par.go:161-494 | for every stream and every schedule, a run that returns a hash has the sequential importer's hash and its database, equal where nonces are distinct and otherwise up to the bytes under shared keys; a run that fails does so where the sequential importer rejects |
| WaveRefinement.ReturnsMerkleRoot | internal/snapshotimport/importer_par.go:451-494 | the hash that any run returns for a store with nodes covers the stream's tree node by node |
| WaveRefinement.MaximalRunsEnd | internal/snapshotimport/importer_par.go:413-494 | for every stream, a run that can go no further has ended with the sequential importer's result |
| Proto.ItemsAreSound | internal/snapshotdiff/diff.go:792-836 | on every item that an encoder writes, differ and applier read the same key and value, and height 0 marks a leaf |
| Proto.FindLater | internal/snapshotdiff/apply.go:657-688 | a field is found behind fields of other numbers |
| LeafDiff.BytesCompare | internal/snapshotdiff/diff.go:383-404 | the byte loop is the lexicographic three-way comparison |
| LeafDiff.RecordOrderIsNotKeyOrder | internal/snapshotdiff/diff.go:186-341 | two records whose keys are in order and whose records are not |
| LeafDiff.RecordReader.Advance | internal/snapshotdiff/diff.go:671-698 | returns the next leaf; inner items are skipped and nothing else |
| LeafDiff.MergeStep | internal/snapshotdiff/diff.go:250-334 | one turn of the merge: which change comes out and which sides advance; two different records of one key are one update with the target's value |
| LeafDiff.DiffStore | internal/snapshotdiff/diff.go:186-341 | emits exactly the merge's changes and counts items, inserts, updates and deletes |
| LeafApply.CollectAppend | internal/snapshotdiff/apply.go:581-618 | reading one more change records it on top of what was collected |
| LeafApply.MergeTells | internal/snapshotdiff/diff.go:186-341 | what the change set says about any key is right about base and target |
| LeafApply.DiffPatches | internal/snapshotdiff/diff.go:186-341 | the differ's changes turn the base's contents into the target's, for any comparison that is zero only on equal records |
| LeafApply.HeadsUpdate | internal/snapshotdiff/diff.go:281-297 | for every comparison, two different records of one key at the heads come out as one update |
| LeafApply.MergeIsExact | internal/snapshotdiff/diff.go:186-341 | where the comparison follows the keys, exactly the keys of the base only are deleted, those of the target only inserted, and those with different records updated, each once |
| LeafApply.ChangesAndCounts | internal/snapshotdiff/diff.go:186-341 | what the byte comparison then emits, with the target's values, and the five counters as the sizes of those sets |
| LeafApply.OneLengthInOrder | internal/snapshotdiff/diff.go:383-404 | items with keys of one length are in key order |
| LeafApply.ChangedComesTwice | internal/snapshotdiff/diff.go:306-322 | without key order a changed value may come out as an insert and a delete |
| LeafApply.CountsAddUp | internal/snapshotdiff/diff.go:186-341 | base items minus deletes plus inserts are the target items |
| LeafApply.ProcessBaseItem | internal/snapshotdiff/apply.go:424-446 | drops, rewrites or passes a base item as the change set says |
| LeafApply.SortedKeys | internal/snapshotdiff/apply.go:308-315 | the insert keys in strictly increasing order |
| LeafApply.EmitTurn | internal/snapshotdiff/apply.go:355-418 | one turn of the applier's merge emits the next items and leaves the rest to emit |
| LeafApply.EmitStoreFromBase | internal/snapshotdiff/apply.go:307-420 | streams the merge of base leaves and sorted inserts; nothing at all when both are empty |
| LeafApply.EmitIsOk | internal/snapshotdiff/apply.go:307-420 | the merge's output is sorted, without duplicates, and has the patched contents |
| LeafApply.DiffThenApply | internal/snapshotdiff/apply.go:307-446 | applying the differ's changes yields the target's keys and values, in order and without duplicates |
| DiffStream.NextRoundTrip | internal/snapshotdiff/apply.go:502-540 | a record that was written is read back, with the rest of the stream |
| DiffStream.ChangeRoundTrip | internal/snapshotdiff/apply.go:581-618 | tag and body of a change record give the change back |
| DiffStream.BodyRoundTrip | internal/snapshotdiff/apply.go:550-572 | names, formats and payloads of section records are read back |
| DiffStream.TakesSection | internal/snapshotdiff/apply.go:581-618 | a section's reader takes exactly that section's changes |
| DiffStream.DiffReader.PeekRecord | internal/snapshotdiff/apply.go:502-540 | shows the next record of the stream, the same one until it is consumed |
| DiffStream.DiffReader.PeekSection | internal/snapshotdiff/apply.go:550-572 | finds the next section header and drops stray records before it |
| DiffStream.DiffReader.ReadStoreChanges | internal/snapshotdiff/apply.go:581-618 | drains a store section into its change set |
| DiffStream.DiffReader.ReadExtChanges | internal/snapshotdiff/apply.go:622-653 | drains an extension section into its removed and added payloads |
| SnapshotDiff.ComputeStream | internal/snapshotdiff/diff.go:110-169 | walks both snapshots in name order and writes one section for every store with changes |
| SnapshotDiff.ApplyNext | internal/snapshotdiff/apply.go:136-183 | one store of the output; fails when the diff updates or deletes in a store that the base lacks |
| SnapshotDiff.Apply | internal/snapshotdiff/apply.go:135-183 | the applier's walk over base and diff produces the stores that the specification gives |
| SnapshotDiff.NeedsBase | internal/snapshotdiff/apply.go:153-166 | a section for a store that the base lacks is accepted exactly when it only inserts; otherwise the whole diff is rejected |
| SnapshotDiff.PatchedStore | internal/snapshotdiff/apply.go:307-472 | a patched store has the target's contents, and a store is left out only when the target has nothing in it |
| SnapshotDiff.AppliedStep | internal/snapshotdiff/apply.go:136-183 | the applier takes the next section for exactly the store that the differ wrote it for |
| SnapshotDiff.StoresRoundTrip | internal/snapshotdiff/apply.go:135-183 | applying the differ's records gives the target's contents under every store name, and stops before the extension records |
| SnapshotVerify.CompareStore | internal/snapshotdiff/verify.go:105-208 | counts the differences of two leaf streams by a merge on keys |
| SnapshotVerify.DeltaZero | internal/snapshotdiff/verify.go:105-208 | no difference is counted exactly when the contents are the same |
| SnapshotVerify.VerifyStores | internal/snapshotdiff/verify.go:35-100 | counts the differences over all stores of two snapshots |
| SnapshotVerify.StoresDeltaZero | internal/snapshotdiff/verify.go:35-100 | zero exactly when both snapshots hold the same under every store name |
| SnapshotDelta.StoreCounts | internal/snapshotdiff/verify.go:105-208 | the three counts of a store are the numbers of keys on the first side only, on the second only, and on both with different values |
| SnapshotDelta.SnapshotCounts | internal/snapshotdiff/verify.go:35-100 | the same for whole snapshots, over store names and keys |
| SnapshotVerify.RebuiltIsEquivalent | internal/snapshotdiff/verify.go:35-100 | a target rebuilt from base and diff compares as equivalent |
| SnapshotVerify.DiffsFit | internal/snapshotdiff/diff.go:493-536 | everything that the differ writes for the stores fits the length prefixes |
| ExtensionDiff.DiffPayloads | internal/snapshotdiff/diff.go:448-480 | one removed payload for each hash that only the base has, one added for each that only the target has |
| ExtensionDiff.DiffExtensions | internal/snapshotdiff/diff.go:408-486 | one section for every extension of either side and for no other name, in name order, saying the difference of the payloads, with the base's format where the base has the extension |
| ExtensionDiff.RebuiltHashes | internal/snapshotdiff/apply.go:243-270 | patching the base's payloads gives the target's payload hashes |
| ExtensionDiff.RebuiltPayloads | internal/snapshotdiff/apply.go:243-270 | without collisions among the payloads, it gives the target's payloads |
| ExtensionDiff.ReadsSections | internal/snapshotdiff/apply.go:191-206 | the applier finds every extension's section under its name |
| ExtensionDiff.ReadExtensions | internal/snapshotdiff/apply.go:191-206 | reads the remaining sections of the diff into a map by extension name; a later section of a name replaces an earlier one |
| ExtensionDiff.ApplyExtensions | internal/snapshotdiff/apply.go:208-274 | every extension of base or diff is patched, and emitted only when a payload is left |
| ExtensionDiff.ExtensionsRoundTrip | internal/snapshotdiff/apply.go:185-274 | diffing, writing, reading and patching gives the target's payload hashes under every name |
| ExtensionDiff.CompareExtensions | internal/snapshotdiff/verify.go:212-248 | counts the payload hashes that one side only has, over all extensions; zero exactly when every extension has the same payload hashes |
| SnapshotRoundTrip.RebuiltSnapshotIsEquivalent | internal/snapshotdiff/verify.go:35-248 | for any sections that say the extensions' difference, the rebuilt stores compare as equal and the rebuilt payloads have the target's hashes |
| SnapshotRoundTrip.DiffBodyFits | internal/snapshotdiff/apply.go:499-540 | every record of the whole diff body fits the length prefixes |
| SnapshotRoundTrip.Diff | internal/snapshotdiff/diff.go:493-536 | computes store changes and extension sections and writes them as one body |
| SnapshotRoundTrip.Patch | internal/snapshotdiff/apply.go:135-274 | reads a body, applies its store changes to the base, then its sections to the base's extensions |
| SnapshotRoundTrip.RoundTrip | internal/snapshotdiff/verify.go:35-248 | differ, body bytes, reader, applier and both comparisons in one: the diff is accepted and no difference is counted, in stores or extensions |
| ChunkRing.ChunkRing.WriteSome | internal/snapshotimport/chunkring.go:120-179 | takes a prefix of the bytes and appends it to the stream; takes nothing exactly when closed or at the cap |
| ChunkRing.ChunkRing.Close | internal/snapshotimport/chunkring.go:184-192 | closes the ring and keeps the first error |
| ChunkRing.ChunkRing.NewReader | internal/snapshotimport/chunkring.go:202-211 | succeeds exactly when the start has not been evicted, and leaves the other readers alone |
| ChunkRing.ChunkRing.EnableManualPin | internal/snapshotimport/chunkring.go:259-266 | sets the pin to the pull position once |
| ChunkRing.ChunkRing.AdvancePin | internal/snapshotimport/chunkring.go:279-302 | moves the pin up, never past the pull position, and evicts |
| ChunkRing.ChunkRing.Read | internal/snapshotimport/chunkring.go:308-353 | hands out the next bytes of the stream, blocks or ends exactly when it should, and never finds its bytes evicted |
| ChunkRing.ChunkRing.FindChunk | internal/snapshotimport/chunkring.go:382-393 | finds the chunk of an offset exactly when the offset is in the ring |
| ChunkRing.ChunkRing.SetEnd | internal/snapshotimport/chunkring.go:358-363 | changes that reader's limit and nothing else |
| ChunkRing.ChunkRing.CloseReader | internal/snapshotimport/chunkring.go:367-378 | forgets the reader and evicts what only it held |
| ChunkRing.ChunkRing.EvictLocked | internal/snapshotimport/chunkring.go:398-419 | drops exactly the chunks behind the slowest pin; without readers it keeps everything |
| ChunkRing.ReadersAreExact | internal/snapshotimport/chunkring.go:242-353 | a reader has received the stream's bytes from its start to its position, and head is at or below its pin |
| ChunkRing.MemoryBound | internal/snapshotimport/chunkring.go:61-114 | active and pooled buffers exceed maxBytes by less than one chunk |
| ChunkRing.BlockedWriterLeavesRoom | internal/snapshotimport/chunkring.go:130-132 | with current pins, a blocked writer leaves more than maxBytes minus chunkSize bytes past the slowest pin |
| ChunkRing.SomebodyCanMove | internal/snapshotimport/chunkring.go:120-179 | with automatic pins and at least one reader, writer and readers are never all blocked |
| PinHandoff.EnvelopePrefix | internal/snapshotimport/snapproto.go:131-200 | a complete envelope reads the same whatever follows it |
| PinHandoff.NextOk | internal/snapshotimport/snapproto.go:131-200 | a worker goes on exactly while its offset is before the segment's end, however far its buffer has read ahead |
| PinHandoff.HeadBelowNext | internal/snapshotimport/parallel.go:421-440 | every pin stays in its own segment, so nothing at or after the next segment's start is gone |
| PinHandoff.Pipeline.WriteMore | internal/snapshotimport/parallel.go:404-409 | the tee into the ring keeps every worker and every pin where it is |
| PinHandoff.Pipeline.OpenStore | internal/snapshotimport/parallel.go:421-440 | stage 1 can always open the next store's reader at the store's start |
| PinHandoff.Pipeline.Start | internal/snapshotimport/snapproto.go:101-112 | the worker switches the reader to manual pins |
| PinHandoff.Pipeline.Fill | internal/snapshotimport/snapproto.go:131-200 | the buffered reader pulls past its segment without ever finding bytes evicted |
| PinHandoff.Pipeline.Next | internal/snapshotimport/parallel.go:974-1024 | commits the item before, returns the next whole item, and ends the loop at the segment's end |
| PinHandoff.Pipeline.SetEnd | internal/snapshotimport/chunkring.go:358-363 | a late end limit keeps every pin in its segment |
| PinHandoff.Pipeline.Finish | internal/snapshotimport/parallel.go:760 | a finished worker closes its own reader and the other pins stay in their segments |
| PinHandoff.Pipeline.OpenExtensions | internal/snapshotimport/parallel.go:1072-1079 | stage 3 can open its reader at the extensions' start |
| PinHandoff.Pipeline.WriteUpTo | internal/snapshotimport/chunkring.go:120-179 | one Write, while no worker moves, ends exactly when it goes no more than maxBytes past head, and otherwise blocks with the ring full |
| PinHandoff.Pipeline.SomeStep | internal/snapshotimport/parallel.go:404-440 | while a store is active and items leave room for a chunk, the first active store's worker can step, or stage 1 can write, or it has written all and closes the ring |
| PinHandoff.Pipeline.AtTheEnd | internal/snapshotimport/snapproto.go:131-200 | at its end limit without a whole item a worker has taken all items of its store, and its buffer is empty exactly when nothing past the segment was pulled |
| PinHandoff.Pipeline.WriteRest | internal/snapshotimport/chunkring.go:398-402 | when all stores are done, stage 1 gets the rest of the stream into the ring exactly when what lies past head is at most maxBytes; a longer extension tail never fits |
| PinHandoff.LongTailBlocks | internal/snapshotimport/parallel.go:323-326 | an orderly run that gets stuck: a store of two bytes, whose worker starts, reads, takes both items and ends, five bytes of extensions, a ring of four |
| PinHandoff.NextStoreBlocks | internal/snapshotimport/chunkring.go:398-402 | a run of three stores that gets stuck before the third is opened: two workers end, the later first, while a Write waits |
| PinHandoff.LateEndCuts | internal/snapshotimport/chunkring.go:308-363 | a run in which the late end limit stops a worker in the middle of the item behind its segment |
| IndexScanner.Scanner.Fill | internal/snapshotimport/index.go:211-238 | makes n bytes available exactly when the stream has them; compacting and growing lose nothing |
| IndexScanner.Scanner.ReadUvarint | internal/snapshotimport/index.go:243-264 | reads a varint of at most ten bytes modulo 2^64 and advances by its length; tells a clean end from a truncated or overlong one |
| IndexScanner.ScanAgrees | internal/snapshotimport/index.go:243-264 | scanner and item reader read the same varints, except that the scanner also takes those of more than 64 bits |
| IndexScanner.OverlongScans | internal/snapshotimport/index.go:243-264 | nine bytes 0xFF and a 0x7F are a varint for the scanner and none for the item reader |
| IndexScanner.Scanner.Discard | internal/snapshotimport/index.go:276-305 | advances by exactly k bytes across buffer and stream, and fails exactly when the stream has fewer |
| IndexScanner.Scanner.ReadExact | internal/snapshotimport/index.go:395-406 | copies exactly the next k bytes, and fails exactly when the stream has fewer |
| IndexScanner.Scanner.ReadStoreName | internal/snapshotimport/index.go:318-383 | returns the name of a store item and consumes exactly its envelope |
| SegmentIndex.ItemKeeps | internal/snapshotimport/parallel.go:497-558 | what one item does to the open entry, the closed entries and the extension start |
| SegmentIndex.Closes | internal/snapshotimport/parallel.go:485-496 | an entry closed where another item starts is bounded by that item |
| SegmentIndex.BuildIndex | internal/snapshotimport/parallel.go:472-571 | on a well-formed stream the entries tile the bytes before the extensions without gap or overlap, each named by its store item |
| SnapReader.Reader.Next | internal/snapshotimport/snapproto.go:131-200 | returns the next item, the clean end or an error, past zero-length envelopes and with the size cap |
| SnapReader.ReadAll | internal/snapshotimport/snapproto.go:131-232 | the calls of Next up to the end give the items of the byte string, or fail when one of them does |
| SnapStream.InnerReads | internal/snapshotimport/snapproto.go:202-232 | an item's message is read as that item, whether a writer leaves zero fields out or not: name, key, value, version, height, format and payload |
| SnapStream.StreamReads | internal/snapshotimport/snapproto.go:131-232 | reading a written stream gives its items in order |
| SegmentDecode.StepIs | internal/snapshotimport/snapproto.go:131-232 | where the indexer sees an envelope the reader reads one item of the same kind, or fails |
| SegmentDecode.SegmentDecodes | internal/snapshotimport/parallel.go:472-571 | the bytes of an index entry decode to one store item of the entry's name and its nodes, whatever comes after them |
| SegmentDecode.EntriesDecode | internal/snapshotimport/parallel.go:472-571 | the items of the whole stream are those of its entries, one store after the other, then the extensions |
| SnapshotImport.CloseStore | internal/snapshotimport/importer.go:456-481 | closing the open store writes its root entries and reports its hash |
| SnapshotImport.ImportItem | internal/snapshotimport/importer.go:483-530 | one turn of the item loop, with its error cases |
| SnapshotImport.RunImport | internal/snapshotimport/importer.go:483-534 | the loop over any items leaves the database and the infos of the flat specification, or fails where it fails |
| Segmentation.PassIsImportAll | internal/snapshotimport/importer.go:483-534 | on distinct stores followed by extensions the flat pass is the import of the stores one after the other |
| Segmentation.ImportSegment | internal/snapshotimport/parallel.go:974-1030 | the synchronous worker of one segment, with its error cases |
| Segmentation.SegmentIsStore | internal/snapshotimport/parallel.go:974-1030 | a segment with whatever comes after it gives its own store's result |
| Segmentation.FinishedAdds | internal/snapshotimport/importer.go:271-352 | a store's result does not depend on the database, and it only adds its entries |
| Segmentation.EntriesUnder | internal/snapshotimport/iavlenc.go:31-82 | a store writes under its own prefix only |
| Segmentation.PrefixesApart | internal/snapshotimport/iavlenc.go:31-37 | no store's prefix starts another's |
| Segmentation.OrderDoesNotMatter | internal/snapshotimport/parallel.go:584-656 | the stores in any two orders leave the same database and report the same hashes |
| Segmentation.ReportsHashes | internal/snapshotimport/importer.go:456-481 | an import reports every store under its name, in order, with the hash of no bytes when it is empty and else one that covers its tree |
| SegmentedImport.ImportEntries | internal/snapshotimport/parallel.go:584-656 | the workers in any order: the infos in that order and the database of importing the stores in that order, or failure when one fails |
| SegmentedImport.ImportByIndex | internal/snapshotimport/parallel.go:472-656 | indexing a snapshot's bytes and importing its segments in any order leaves the database and the infos of one pass over its items, and fails exactly when that pass fails |
| Interleaving.AnyInterleaving | internal/snapshotimport/parallel.go:584-656 | any interleaving of the calls that several stores make, each in its own order, leaves the database of importing the stores one after the other |
| Interleaving.ImportAtOnce | internal/snapshotimport/parallel.go:472-656 | with workers at once on the segments of a snapshot, any interleaving of their calls leaves the database of one pass over its items |
| ChunkScheduler.Scheduler.PickPeer | internal/snapfetch/download.go:775-811 | the least loaded eligible peer, proven before provisional; none exactly when no eligible peer has a slot |
| ChunkScheduler.Scheduler.Dispatch | internal/snapfetch/download.go:820-849 | in index order, pending chunks are requested from connected peers that are not banned and have not declined them; the round stops at the first chunk that no peer has a slot for; a peer that has gone since it was chosen is banned, one with a full queue is skipped; nothing is lost |
| ChunkScheduler.Scheduler.OnChunk | internal/snapfetch/download.go:624-744 | late, duplicate, missing, wrong and foreign replies: a chunk is completed exactly by a first verified and written reply; the verdict on its data joins the peer's history, a missing chunk is remembered as declined and does not, and a peer that declined a chunk is not asked for it again |
| ChunkScheduler.Scheduler.BannedForMismatches | internal/snapfetch/download.go:54-77 | after any events, a peer that nothing else benched is banned exactly when at some reply its mismatches since its last verified chunk came to its limit: provisionalStrikes while it was new and had verified nothing, else peerFailLimit; it is provisional exactly until its first verified chunk |
| ChunkScheduler.Scheduler.Store | internal/snapfetch/download.go:726-742 | a verified chunk completes its index: its file has that content, no completed file changes, and ready fires once more |
| ChunkScheduler.Scheduler.Expire | internal/snapfetch/download.go:533-552 | exactly the timed-out requests go back to pending, and exactly the provisional peers among them are banned |
| ChunkScheduler.Scheduler.OnTimeoutTick | internal/snapfetch/download.go:533-566 | every timed-out chunk is pending or has just been requested from a connected peer, no other request is dropped, and bans made elsewhere are mirrored |
| ChunkScheduler.Scheduler.OnConnect | internal/snapfetch/download.go:600-605 | a connected peer is registered, as provisional when it is new, and no request is dropped |
| ChunkScheduler.Scheduler.OnRemoved | internal/snapfetch/download.go:609-620 | exactly the lost peer's requests go back to pending or to other peers |
| ChunkScheduler.Scheduler.ResumeEntry | internal/snapfetch/download.go:280-350 | a readable file with the wanted hash completes its missing chunk; exactly the unwanted files are removed |
| ChunkScheduler.Scheduler.ResumeFromDisk | internal/snapfetch/download.go:274-352 | every chunk with a usable file is completed, doneCount grows by the number resumed, and no file changes its content |
| ChunkScheduler.Scheduler.DoneMeansAll | internal/snapfetch/download.go:356-397 | doneCount reaches the number of chunks exactly when all are completed |
| ChunkScheduler.Scheduler.PeerCeiling | internal/snapfetch/download.go:761-811 | after any events, a peer has no more requests in flight than its ceiling and its stray replies; without stray replies its load is exact, perPeer bounds all peers when the probe budget is below it, and the proven ones when the budget is not above it |
| ChunkScheduler.ProbesExceed | internal/snapfetch/download.go:797-811 | at every perPeer not above the probe budget, a run without stray replies gives a new peer more than perPeer requests |
| ChunkScheduler.PromotedExceeds | internal/snapfetch/download.go:761-811 | at every perPeer below the probe budget, a run without stray replies leaves a proven peer with more than perPeer requests |
| ChunkScheduler.UnaskedReply | internal/snapfetch/download.go:636-639 | at every perPeer above the probe budget, a run in which one stray reply leaves a proven peer with perPeer + 1 requests |
| ChunkScheduler.Complete | internal/snapfetch/download.go:737-742 | doneCount and bytesTotal stay the count and the size of the completed chunks |
| HeightWalk.WalkTargets | internal/snapfetch/walk.go:480-493 | exactly the positive multiples of the interval in the window, in descending order |
| HeightWalk.MatchOffer | internal/snapfetch/walk.go:319-341 | the first offer of that height and format that the chunk verifies against; none exactly when there is none |
| HeightWalk.SearchHeight | internal/snapfetch/walk.go:222-367 | the first event that cancels, jumps or verifies a chunk decides the search, with the offers known then; otherwise the deadline does |
| HeightWalk.LogGrows | internal/snapfetch/walk.go:203-403 | a search at a height that has not failed keeps the history free of retries |
| HeightWalk.WalkQueue | internal/snapfetch/walk.go:161-407 | ends whatever peers send, after at most 7 searches a target; never searches a failed height again; accepts only verified chunks in the window; every search is at the next height of the queue, is given the offers heard, the failed heights and the jumps left, and ends as its events say; the result follows from the last one |
| HeightWalk.WalkBackward | internal/snapfetch/walk.go:79-407 | the same for the whole walk over the multiples of the interval in descending order; it gives up only when every multiple in the window has failed |
| HeightWalk.FeedDecides | internal/snapfetch/walk.go:161-407 | what the walk receives decides its searches: two logs of one feed agree as far as both go |
| HeightWalk.OfferIsFollowed | internal/snapfetch/walk.go:254-267 | while jumps are left, an offer above the searched height and of a height that has not failed ends the search in a jump, and the next search is at that height |
| HeightWalk.TakesJump | internal/snapfetch/walk.go:254-267 | a search that may jump does so at the first such offer, unless it has ended before |
| HeightWalk.TakesChunk | internal/snapfetch/walk.go:281-367 | a search accepts the first chunk 0 in its range whose bytes match an offer heard before, unless it has ended before |
| HeightWalk.HeardFrom | internal/snapfetch/offerset.go:29-50 | the offers heard are those known before and then offers that came, none twice |
| HeightWalk.HeardAll | internal/snapfetch/offerset.go:29-50 | every offer that came is heard, or one with its height, format and hash |
| HeightWalk.SearchesStayInWindowIff | internal/snapfetch/walk.go:203-436 | a walk searches only in its window exactly when none of its jumps goes above the maximum; at most two searches above it for each such jump |
| HeightWalk.JumpsOverIff | internal/snapfetch/walk.go:425-436 | a search in the window jumps above the maximum exactly when it receives an offer above it |
| HeightWalk.JumpLeavesWindow | internal/snapfetch/walk.go:425-436 | an offer at height 11 ends the search at 10, in a window up to 10, by a jump to 11 |
| CommitInfo.CommitInfoBytes | internal/snapshotimport/commitinfo.go:53-60 | the loop writes the version field and then one field for each store in order |
| CommitInfo.ParseCommitId | internal/cli/verify/verify.go:235-262 | the index loop computes the hash of a commit id, with its error cases |
| CommitInfo.ParseStoreInfo | internal/cli/verify/verify.go:200-233 | the index loop computes name and hash of a store info, with its errors and panics; a name may reach into the bytes that follow |
| CommitInfo.ParseCommitInfo | internal/cli/verify/verify.go:167-198 | the index loop computes the stores of a record, with its errors and panics |
| CommitInfo.NamesFitIff | internal/cli/verify/verify.go:208-215 | the parse of a store info is that of a parser that checks name lengths exactly when every name length fits |
| CommitInfo.LongNames | internal/cli/verify/verify.go:208-215 | a name length of 5 before one byte: four bytes of the record are taken for the name, and at the record's end it panics |
| CommitInfo.CommitInfoRoundTrip | internal/snapshotimport/commitinfo.go:53-113 | parsing what was written gives the stores back, for all versions, names and hashes, empty ones too |
| CommitInfo.DaemonReads | internal/snapshotimport/commitinfo.go:53-90 | a message decoder gets the version back, and for every store in order its name, that version and its hash |
| AppHash.TreeHashDetermines | internal/cli/verify/verify.go:306-319 | without collisions among the hashed strings, the tree hash of section 2.1 of RFC 6962 determines the leaves |
| AppHash.TreeHashOf | internal/cli/verify/verify.go:306-319 | what is hashed for one leaf input is a byte 0 and the input; for more, a byte 1, the hash of the first k and the hash of the rest, with k the largest power of two below their number |
| AppHash.LeafInputDetermines | internal/cli/verify/verify.go:309-316 | a leaf input determines the store's name and the hash of its root hash |
| AppHash.LeafInputReads | internal/cli/verify/verify.go:309-316 | a leaf input reads as the name and then the hash of the root hash |
| AppHash.DistinctNames | internal/cli/verify/verify.go:306-308 | with pairwise different names no two stores share a name, so the sort has one result |
| AppHash.ComputeAppHash | internal/cli/verify/verify.go:306-319 | sorts its argument in place and returns the tree hash of the sorted leaves, which is the app hash of the stores as given |
| AppHash.AppHashIs | internal/cli/verify/verify.go:306-319 | the app hash is the tree hash over the stores in strictly increasing order of their names |
| AppHash.AppHashPermutes | internal/cli/verify/verify.go:306-319 | the app hash is the same for every permutation of stores of which no two different ones share a name |
| AppHash.AppHashIffSameStores | internal/cli/verify/verify.go:306-319 | without collisions, two records have the same app hash exactly when they hold the same stores |
| CommitRecord.RecordsOutside | internal/snapshotimport/commitinfo.go:62-76 | the commit-info and latest-version keys lie outside every store's prefix, and differ |
| CommitRecord.RecordsRead | internal/snapshotimport/commitinfo.go:62-83 | the daemon reads the latest version, and under it that version's stores with their hashes |
| CommitRecord.KeyNamesHeight | internal/snapshotimport/commitinfo.go:62-66 | the record's key is s/ and the decimal digits of its height |
| CommitRecord.ReadCommitInfo | internal/cli/verify/verify.go:136-159 | the record stored under a height, parsed; an error when there is none |
| CommitRecord.NamesReported | internal/snapshotimport/importer.go:456-534 | an import that succeeds reports one store for each store item, in order |
| CommitRecord.ImportFlat | internal/snapshotimport/importer.go:483-543 | the sequential import leaves its stores, then the record of the stores in stream order and the latest version, and the daemon reads both back |
| CommitRecord.ImportParallel | internal/snapshotimport/parallel.go:282-350 | the parallel import leaves the same stores, and the record of the stores in name order, whatever order the workers took; the daemon reads it back |
| CommitRecord.SameAppHash | internal/cli/verify/verify.go:71-91 | the app hash computed from the database after either import is that of the snapshot's stores |

## Left out

- StoreImporter.Importer.Finalize: errors of the set and setFast callbacks are not modelled; both write the one map.
- WaveRefinement.WaveRefinesSequential: where several nodes have one key, it does not say whose bytes stay. Write
  errors, firstErr and the teardown of goroutines on an error are left out, and with them the nil-ing of fields. Reads
  and writes of plain fields (parent, encoded, rootEncoded) are single steps. The nonces are given with the items;
  NextNonce is proved in StoreImporter. Closing the ready channel is one step with the dispatcher's exit. The
  fast-storage writes of main and the writer's node writes go to one map.
- ChunkRing.ChunkRing.WriteSome: is one round of the Write loop; a caller that waits calls it again later. The same
  holds for Read. Readers are values under handles instead of objects with a pointer to the ring.
- PinHandoff.Pipeline.Next: is the synchronous store loop on envelopes; nothing is claimed for the wave-parallel
  decoder, which calls Next ahead of its consumer. What arrives from the ring, how much and when, is arbitrary.
  Zero-length envelopes, the size cap and decoding are in SnapReader.
- SnapReader.Reader.Next: an inner length that is cut off counts as an error, where the program may panic.
- SegmentIndex.BuildIndex: is proved on well-formed streams that begin with a store item; an extension item at offset 0
  would be taken for a missing start. The callbacks and the final sort by size are left out.
- IndexScanner.Scanner.ReadStoreName: reads the envelopes that the snapshot writer produces; skipping further fields is
  left out.
- SegmentedImport.ImportByIndex: asks for a snapshot: a well-formed stream whose items decode, distinct store names
  without a slash, and payloads only behind a meta item. The workers, each the synchronous loop, run one after the other
  in any order; ImportEntry states the calls of each, and the interleavings of these calls are in Interleaving.
- SegmentedImport.ImportEntries: the same.
- Interleaving.ImportAtOnce: is about imports in which no worker fails.
- CommitRecord.ImportParallel: takes the database and the infos from SegmentedImport.ImportByIndex.
- SnapshotImport.RunImport: the SSTable ingest and the extension files are left out.
- CommitRecord.SameAppHash: the consensus app hash that the verifier fetches and compares with is left out.
- ChunkScheduler.Scheduler.OnChunk: asks for an index below the number of chunks. After a late reply a chunk may be
  pending and completed at once, as in the program; the invariant is that no uncompleted chunk is lost.
- ChunkScheduler.Scheduler.Dispatch: bans are a field of a peer; the ban list, the reactor and the run loop's timers are
  parameters or left out.
- HeightWalk.SearchHeight: what each search receives is an arbitrary list of events. Asking peers for chunks, the set of
  requests already made, bans and the warm-up timer are left out; the offers known before the walk are a parameter.
- AppHash.ComputeAppHash: the tree hash of the cometbft library is its definition in RFC 6962; the library is not part
  of this model.
- SnapshotDiff.ComputeStream: the chunked reader under a store's cursor is modelled as the list of its records.
- Other malformed wire input on which the program would panic is excluded by preconditions.
- Pebble, SSTables, zlib, files, fsync, peer-to-peer networking, the state-sync diff, the prefetch and tailing readers,
  the command line, configuration, logging and statistics.
