# Verified model of the Arbesk backend's stateful engines

This project models the parts of the Arbesk backend whose guarantees hold over whole runs, and proves
those guarantees. Every module stands for one engine or one layer of it:

| layer | modules |
|---|---|
| Manifest walk and reachability collector | `ManifestStore`, `ManifestWalk`, `FullWalk`, `UnpinWalk`, `WalkErrors`, `ManifestWalkLimits`, `ManifestChainWalker`, `GcHistory`, `IpfsGc` |
| Token indexer | `TransferLog`, `EditorIndex`, `TokenIndexer` |
| Pre-minted upload credentials | `PoolProtocol`, `CredentialPool` |
| Generation tasks | `GenerationTasks`, `AnimationPresets`, `AnimateChain`, `GenerationRoutes` |
| glTF buffer packing | `BufferPacking` |
| Time-based guards | `CadQuota`, `SiweNonces`, `RateLimiter`, `ChatWindow` |
| Scene reload | `ChildRefs` |

Where the program updates objects in place, a class holds the same fields and each method is tied to a
function on the old state; the run-level theorems are about those functions. Each engine has one
reference definition that does not mention how the code proceeds: paths through the manifest edges
(`ManifestStore.Reachable`), the one-shot replay of the log (`TransferLog.Replay`), the list of all
accepted messages (`ChatWindow.Accepted`), and so on.

## What the theorems say

* **Manifest walk.** Without errors the full walk collects everything reachable by links it follows, on any
  store with any cycles and shared chains, and on a store of plain documents exactly the reachable CIDs; in
  every mode and whatever fails it collects nothing else. Every error has its cause in a document, a source or a
  chain length, so a walk that can read everything within its budget has none. The
  unpin walk ends on every store and is exactly the unique prev trail up to the first repeat, failed
  read or spent budget, and reports no error exactly when nothing was cut or unreadable.
* **Collector.** A run is not blocked when every document and source of every live token can be read, and on regular
  stores exactly then; it unpins only listed CIDs that no token which really lives really protects; a blocked or dry run
  changes nothing. Over any history an unpinned CID was an orphan at a committed run at least the grace period earlier
  and at every committed run of that scope since; and what readable runs have kept seeing as an orphan for the grace
  period is unpinned by the next run that nothing holds back.
* **Indexer.** After every completed chunk the ownership is the one-shot replay of the whole log, for any
  chunk sizes, rejections, failures, failed saves, restarts and re-read boundary blocks, and every token with an
  editor event in the chunk holds what its one read answered. A range scan ends
  on every oracle, within the stated number of shrinks, and throws exactly at the first request that fails or that is
  rejected for a single block; enough chunks without a rejection bring the chunk size back to its ceiling. The two editor maps stay exact inverses.
* **Credential pool.** Under every interleaving of requests, refill and clock: bounded, in mint order,
  every signed URL in exactly one place, none handed out twice, none expired when taken from the pool, one
  refill chain at a time, at most five mint rounds in it, and cleared after at most eleven steps of its own. A request
  takes the oldest usable entries first, and an answer that finds no chain in flight starts one for exactly what is
  missing.
* **Animate chain.** Over any sequence of requests and polls: each paid step at most once and in order,
  restricted tasks stay restricted, completed entries are terminal, owners' tasks are moved by owners only; and every
  paid call is what the task's request asked for, so a request for a rig check costs nothing, ever.
* **Packing.** Every view that lies within its buffer denotes the same bytes afterwards (glTF 2.0
  specification, section 3.6.1 Buffers and Buffer Views).
* **Guards.** Exact counters, lock and nonce separation, and window bounds over unbounded runs.

## Where the code falls short of its own promise

Each of these keeps the code as it is, names an input, and says when the promise does hold.

* A collection met inside an asset's prev chain is listed but not walked, so content below it is lost
  without an error (`ManifestWalkLimits.NestedCollectionIsNotWalked`); the exact guard is
  `ManifestWalkLimits.AssetsAreWalkedIff`.
* A manifest that names `__json_failed_<cid>` hides the references of `<cid>`
  (`ManifestWalkLimits.MarkerHidesReferences`; the exact guard is
  `ManifestWalkLimits.ReferencesAreCollectedIff`). No code path in the walker ever sets that marker.
* A stored JSON `null` ends a chain silently (`ManifestWalkLimits.NullManifestIsNotCollected`; the exact
  guard is `ManifestWalkLimits.VisitedIsCollectedIff`).
* What a clean full walk still guarantees on a store with such documents is stated link by link in
  `FullWalk.CleanWalkCollects`, and the collector protects exactly that.
* An indexer whose tip is still the deployment block reports success without having read that block. It
  then holds the replay exactly when the block transfers no token (`TransferLog.UnreadDeploymentBlockIff`,
  last clause of `TokenIndexer.Indexer.CatchUp`).
* An editor list that cannot be read leaves the token's old list in place (`TokenIndexer.ReadTokenHolds`), and the
  chunk counts as scanned and is saved all the same. The list is read again only when the token has another
  editor event in a later chunk, or when its block is the one the next catch-up starts with.
* With a grace period of zero or less the first run may unpin; that happens exactly then
  (`GcHistory.FirstRunUnpinsIff`).
* A run that cannot read the state file and commits drops the marks of all other scopes; it leaves them
  alone exactly when the file was readable or held none (`GcHistory.OtherScopesIff`). Grace then restarts: a mark
  keeps its time exactly while every run that commits, whatever its scope, could read the file (`GcHistory.MarkIsKeptIff`).
* The comment on `refundCadUnit` says a unit is only given back within the UTC day it was charged. The code
  compares the counter's day with today, not the charge's day; a late refund takes a unit of today exactly
  when one was used today (`CadQuota.RefundKeepsPromiseIff`, `CadQuota.LateRefundHappens`).
* An operator's lock override below attempts x timeout undercuts the request
  (`CadQuota.TtlCoversRequestIff`).
* SIWE messages cannot be replayed exactly when the message age limit is below the nonce TTL, or no message
  is ever fresh (`SiweNonces.NoReplayIff`).
* A poll by another wallet drops an expired entry; it leaves the entry alone exactly when it has not
  expired (`AnimateChain.OthersPollKeepsEntryIff`). Nothing could have found that entry any more
  (`GenerationTasks.ExpiredIsInvisible`).
* The mismatch guard runs before the rig model is known: with an automatic model, presets that passed can
  misfit the model really used, exactly when one of them is tied to another model
  (`AnimationPresets.FitsUsedModelIff`); a run in which such a retarget starts is `AnimateChain.RetargetCanMisfit`.
  The retarget-only shortcut checks no preset at all (`AnimateChain.ShortcutChecksNoPreset`); it only
  guarantees the finished rig it works on.
* A view that overruns its buffer keeps its bytes exactly when nothing follows for it to run into
  (`BufferPacking.ViewKeepsItsBytesIff`, `BufferPacking.OverrunningViewChanges`).
* The chunk is concatenated without padding, so a view keeps the alignment the glTF 2.0 specification demands
  (section 3.6.2.4 Data Alignment) exactly when its buffer starts at a multiple of 4
  (`BufferPacking.ViewKeepsItsAlignmentIff`, `BufferPacking.OddBufferMisaligns`).
* A charge whose save failed can be forgotten by a restart (`CadQuota.RestartForgetsUnsavedUnit`); the counter
  is exact if and only if no restart reads back another count than memory had (`CadQuota.CounterIsNetAdmissionsIff`).
* A restart frees every CAD lock, so a second request can run beside the first
  (`CadQuota.RestartAdmitsSecondRequest`); a live lock is lost in no other way than a restart or its release
  (`CadQuota.LiveLockGoesIff`).

## Assumptions

Clocks never run backwards. Times, limits and block numbers are integers. The chain's logs are immutable and
in block order. A file save stores the whole state or leaves the old one. Random ids are fresh, and the
storage provider never signs the same URL twice. One request, poll or verification is one step; only the
credential pool is split at its awaits. CIDs, addresses and token ids are opaque values, already in their
canonical spelling. RPC, storage, provider and signature answers are arbitrary parameters. For the collector an answer that
arrives is true and one that does not arrive says nothing; within one run the same read gets the same answer.
A provider call that throws was not accepted: that each paid step is started at most once rests on it, since
a call that was accepted and then timed out would be made again at the next poll.

## Model

| member | source | states |
|---|---|---|
| ManifestStore.ClosedSetHoldsPath | src/api/manifest-chain-walker.ts:122-263 | Any set that holds a start and is closed under prev and collection-asset links holds every manifest reached from it |
| ManifestStore.VisitedIsLedTo | src/api/manifest-chain-walker.ts:130-136 | Every manifest the walk can stand on, in its mode there, is reachable by the code's edges |
| ManifestStore.TracedIsReachable | src/api/manifest-chain-walker.ts:122-214 | Whatever a visited manifest contributes is reachable from the start |
| ManifestStore.ReachableReally | src/api/manifest-chain-walker.ts:111-119 | What is reachable as far as documents can be read is truly reachable |
| ManifestWalk.NodesAdd | src/api/manifest-chain-walker.ts:163-214 | Scene nodes add exactly their sources, bundles and reference images to the shared set, never lose anything, and reach at most the references embedded in sources beyond that |
| ManifestWalk.NodesAddReferences | src/api/manifest-chain-walker.ts:15-39 | Without an error every source whose own marker is not collected was read, and all its embedded references are collected |
| ManifestWalk.AssetManifestAdds | src/api/manifest-chain-walker.ts:144-168 | An asset manifest owns exactly its thumbnail and archive, shares exactly what its nodes name, and throws only when its scene cannot be iterated |
| FullWalk.ChainStaysWithin | src/api/manifest-chain-walker.ts:216-263 | In any state and mode a chain walk only grows the sets and collects only what positions it can stand on contribute |
| FullWalk.ChainSettles | src/api/manifest-chain-walker.ts:216-263 | A clean chain walk leaves every visited document read and expanded except what an enclosing walk still owes (the white, gray, black argument over the shared visited set); a document met nested owes its assets to nobody |
| FullWalk.SettledHoldsSafelyReachable | src/api/manifest-chain-walker.ts:64-93 | A visited set with nothing pending holds everything safely reachable from the start |
| FullWalk.WalkCollectsOnlyReachable | src/api/manifest-chain-walker.ts:64-93 | Soundness in every mode, with any failures: only reachable CIDs are collected |
| FullWalk.CleanWalkCollects | src/api/manifest-chain-walker.ts:64-93 | Completeness against what is really stored: a full walk without errors, reading documents that are the true ones where they can be read, collects everything truly reached by guarded links: prev, assets of collections never met nested, what each such document names unless it is null, and the references of each source whose own marker is not reachable; so an unreadable document or source cannot go without an error |
| FullWalk.CleanWalkHasRead | src/api/manifest-chain-walker.ts:24-30 | A full walk without errors has read and could use every document on a guarded path, and has read every source there whose marker is not reachable |
| FullWalk.TruthIsSeen | src/api/manifest-chain-walker.ts:15-39 | What is truly reachable by guarded links is so in what a clean walk could read |
| FullWalk.TameIsSafe | src/api/manifest-chain-walker.ts:64-93 | On a store without the three kinds of bad documents everything reachable is reachable by such guarded links |
| FullWalk.CleanWalkIsExact | src/api/manifest-chain-walker.ts:64-93 | Where the true store has no nested collections, null manifests or marker names below the start, a full walk without errors collects what is truly reachable, all of it and nothing else |
| UnpinWalk.ShorterTrailIsPrefix | src/api/manifest-chain-walker.ts:226-262 | Two prev trails of one start agree as far as both go |
| UnpinWalk.FullTrailIsUnique | src/api/manifest-chain-walker.ts:226-262 | The trail up to the first repeat, missing link or budget is a function of store, start and budget |
| UnpinWalk.StraightVisit | src/api/manifest-chain-walker.ts:236-261 | Without recursion one visit adds exactly the owned and the shared class of one manifest and one error per unreadable document |
| UnpinWalk.UnpinWalkIsTheTrail | src/api/manifest-chain-walker.ts:216-263 | The unpin walk ends on any store; its own set is the trail's manifests with thumbnails and archives; it reports no error exactly when all was readable and no budget cut the chain |
| WalkErrors.NodesBlameSources | src/api/manifest-chain-walker.ts:15-39 | Scene nodes add no error but for a source they name that cannot be read; a readable source that is no JSON costs nothing |
| WalkErrors.ChainIsExplained | src/api/manifest-chain-walker.ts:216-263 | From any state in which every error has its cause a chain walk adds none without: a truncation comes only after `maxDepth` distinct documents of the prev chain, with another one to follow |
| WalkErrors.ErrorsHaveCauses | src/api/manifest-chain-walker.ts:15-263 | In every mode on every store: a read failure names a document that is led to and is not readable JSON, a reference failure an unreadable source of such a document, a truncation a chain that is longer than its budget; a throw means an unusable scene |
| WalkErrors.ReadableWalkIsClean | src/api/manifest-chain-walker.ts:64-93 | When every document that is led to is readable JSON with a usable scene, every source of one can be read, and no chain is longer than the budget, the walk has no error |
| WalkErrors.CleanWalkIff | src/api/manifest-chain-walker.ts:64-93 | Exactly then, for a full walk on stores without nested collections and markers whose chains fit the budget |
| ManifestWalkLimits.NestedCollectionIsNotWalked | src/api/manifest-chain-walker.ts:133-136 | A concrete store on which a clean full walk misses a reachable thumbnail because a collection sits inside an asset's chain |
| ManifestWalkLimits.AssetsAreWalkedIff | src/api/manifest-chain-walker.ts:130-141 | The exact guard: a collection's assets are all visited by a clean visit exactly when the walk is not inside another collection's asset chain, or had visited them before |
| ManifestWalkLimits.MarkerHidesReferences | src/api/manifest-chain-walker.ts:21 | A concrete store on which a named marker hides a source's references without an error |
| ManifestWalkLimits.ReferencesAreCollectedIff | src/api/manifest-chain-walker.ts:15-39 | Reading a source collects its references exactly when no marker is in the way or all are there already |
| ManifestWalkLimits.NullManifestIsNotCollected | src/api/manifest-chain-walker.ts:239-240 | A stored JSON null ends its chain cleanly without being collected |
| ManifestWalkLimits.VisitedIsCollectedIff | src/api/manifest-chain-walker.ts:237-253 | The exact guard: visiting a document leaves it collected exactly when it holds a manifest, or was collected before |
| ManifestChainWalker.AddAssetsStops | src/api/manifest-chain-walker.ts:130-141 | After an asset's walk has thrown, the rest of the collection adds nothing |
| ManifestChainWalker.WalkContext.CollectEmbeddedIpfsCids | src/api/manifest-chain-walker.ts:15-39 | Filling the shared set in place gives the sets of `ManifestWalk.AddEmbedded`, on which `ReferencesAreCollectedIff` and `WalkErrors.NodesBlameSources` decide: only an unreadable source costs an error, a marked one and one that is no JSON nothing |
| ManifestChainWalker.WalkContext.AddNodeSource | src/api/manifest-chain-walker.ts:171-195 | A node's source, its embedded references in source mode, and its bundle, in that order |
| ManifestChainWalker.WalkContext.AddReferenceImages | src/api/manifest-chain-walker.ts:203-214 | Single and listed reference images enter the shared and the reachable set |
| ManifestChainWalker.WalkContext.ProcessAssetManifest | src/api/manifest-chain-walker.ts:144-168 | The owned and shared classes of one asset manifest, filled in place; a scene that cannot be iterated stops the walk after the owned part (meaning: `ManifestWalk.AssetManifestAdds`) |
| ManifestChainWalker.WalkContext.ProcessCollectionManifest | src/api/manifest-chain-walker.ts:122-142 | The loop over a collection's assets refines the recursive walk: nested chains share the sets, get their own budget and no further nesting, and a throw leaves the rest unseen |
| ManifestChainWalker.WalkContext.VisitOne | src/api/manifest-chain-walker.ts:236-259 | Marking, reading and recording one CID refines one step of the recursive walk, in either mode and with every kind of content |
| ManifestChainWalker.WalkContext.WalkSingleChain | src/api/manifest-chain-walker.ts:216-263 | The chain loop ends on any store and refines the recursive walk that the soundness and exactness theorems are about |
| ManifestChainWalker.WalkManifestChain | src/api/manifest-chain-walker.ts:64-93 | The exported walk, against what is really stored: sound always; clean and full, it collects everything truly safely reachable, and on a tame store exactly what is truly reachable; every error it reports has its cause, and it reports none when everything can be read, on regular stores exactly then |
| ManifestChainWalker.WalkForUnpin | src/api/manifest-chain-walker.ts:64-93 | The result of an unpin walk read off the one full trail: visited, owned, shared, and when errors is empty |
| GcHistory.MarkHasWitness | src/api/ipfs-gc.ts:332-342 | Over any history every persisted mark was set by a committed run at that time, and every committed run of the scope since saw the CID as an orphan |
| GcHistory.UnpinnedOnlyAfterGrace | src/api/ipfs-gc.ts:332-404 | Over any history an unpinned CID was an orphan at a committed run at least the grace period earlier and at every committed run of that scope since |
| GcHistory.MarkIsKept | src/api/ipfs-gc.ts:332-342 | Over any history with an advancing clock, a CID that a committed run saw as an orphan and every later committed run of the scope saw and kept has a mark no later than that run, as long as the runs that committed could read the file |
| GcHistory.LostMarkIsNew | src/api/ipfs-gc.ts:541-557 | After a committed run that could not read the file every mark is at least as late as that run |
| GcHistory.MarkIsKeptIff | src/api/ipfs-gc.ts:332-557 | The exact condition: such a mark keeps its time exactly when no run of any scope wrote the file without having read it |
| GcHistory.FirstRunUnpinsIff | src/api/ipfs-gc.ts:332-342 | A run that follows no other can unpin an orphan exactly when the grace period is not positive |
| GcHistory.BlockedRunChangesNothing | src/api/ipfs-gc.ts:350-378 | A run with a prior error, and a dry run, unpin nothing and leave the whole file as it was |
| GcHistory.OtherScopesIff | src/api/ipfs-gc.ts:541-557 | A committed run leaves the other scopes' marks alone exactly when it could read the file or there were none |
| GcHistory.MarksRestart | src/api/ipfs-gc.ts:332-404 | A CID that was reachable or unpinned at a committed run has no mark afterwards |
| IpfsGc.ScanMintedTokenIds | src/api/ipfs-gc.ts:140-167 | Batched log scans find exactly the tokens minted between deployment and the end block, each once, and succeed exactly when the end block and every batch are answered |
| IpfsGc.DiscoverLiveTokenIds | src/api/ipfs-gc.ts:175-206 | A scan that completes returns exactly the minted tokens with a non-zero owner; it is free of errors exactly when the mints and the owner of every minted token are known, so a timeout is never taken for a burn |
| IpfsGc.DiscoverAllLiveTokens | src/api/ipfs-gc.ts:410-434 | Scanned contracts come with their live tokens; there is no error exactly when every contract's mints and owners are known, and then none is missing |
| IpfsGc.ProtectToken | src/api/ipfs-gc.ts:228-281 | One live token protects what its URI safely reaches and its editor list, and errors exactly when an answer is missing or the walk is not clean (when that is: `IpfsGc.TokenIsCleanIff`) |
| IpfsGc.StripIpfsKeepsCid | src/api/ipfs-gc.ts:271 | A CID reads the same with and without its scheme |
| IpfsGc.TokenIsCleanIff | src/api/ipfs-gc.ts:228-281 | A token whose documents and sources can all be read along chains within the budget costs no error; one without an error had all of them read that are on guarded paths; on regular stores the two agree |
| IpfsGc.BuildReachableSet | src/api/ipfs-gc.ts:218-285 | Always nothing but what live tokens may protect is in the set; there is no error exactly when every live token's reads succeed and its walk is clean, and then all they protect is in it |
| IpfsGc.MarkOrphans | src/api/ipfs-gc.ts:332-342 | Current orphans keep or start their first-seen time (over a history: `GcHistory.MarkIsKept`); eligible are exactly those past the grace period |
| IpfsGc.SliceFromStart | src/api/ipfs-gc.ts:555 | Exactly as many eligible CIDs are taken from the front as are allowed and there; a negative bound counts from the end |
| IpfsGc.NothingFailsIff | src/api/ipfs-gc.ts:498-536 | A run is not blocked when every document and source of every live token can be read; one that is not has read all on guarded paths; with regular documents it is blocked exactly when something cannot be read |
| IpfsGc.Successes | src/api/ipfs-gc.ts:391-402 | The unpinned CIDs are those with a successful answer at their own position; all of them when none fails |
| IpfsGc.FindOrphans | src/api/ipfs-gc.ts:498-536 | There is no error exactly when no read fails, and none when everything can be read, document by document; then an orphan is a listed CID that no token which really lives really protects; a listed CID that is not an orphan may be protected |
| IpfsGc.RealityIsSeen | src/api/ipfs-gc.ts:122-128 | When no read failed, answers that are true where they arrive show every token that really lives and everything it really protects |
| IpfsGc.Collector.UnpinEligible | src/api/ipfs-gc.ts:384-404 | Exactly the CIDs whose unpin request the storage answers with success leave the pins and lose their mark, in order; every CID is a success or an error |
| IpfsGc.Collector.Sweep | src/api/ipfs-gc.ts:350-378 | A sweep unpins and commits only what the history allows: the successes among the eligible, cut to the cap |
| IpfsGc.Collector.OverdueIsPastGrace | src/api/ipfs-gc.ts:332-378 | An orphan that readable runs have kept seeing for the grace period is past it, whatever happened before and between |
| IpfsGc.Collector.RunIpfsGC | src/api/ipfs-gc.ts:478-577 | One whole run: it is blocked by what it could not read and by nothing else; it unpins only listed CIDs that no token which really lives really protects; when nothing holds it back it unpins every orphan that readable runs have kept seeing for the grace period; its counts are those of the run; and it extends the recorded history |
| IpfsGc.Collector.EveryUnpinWasOverdue | src/api/ipfs-gc.ts:478-577 | Over a collector's whole life everything unpinned had been an orphan of its scope for the grace period without a break |
| TransferLog.ApplyIsLastWriter | src/api/token-indexer.ts:318-340 | After applying logs a token's owner is its last recipient, or what it was before |
| TransferLog.ReplayGivesLastRecipient | src/api/token-indexer.ts:318-340 | The one-shot replay owns exactly the transferred tokens, each by its last recipient |
| TransferLog.ApplyInTwoSteps | src/api/token-indexer.ts:353-366 | Applying two log batches one after the other equals applying them at once |
| TransferLog.ApplyAgain | src/api/token-indexer.ts:451 | Applying logs again that were just applied changes nothing |
| TransferLog.ReplayIsReadyForNext | src/api/token-indexer.ts:353-366 | A replay up to a block plus any number of following blocks is the longer replay |
| TransferLog.ReplayIsReadyForBoundary | src/api/token-indexer.ts:451 | The same when the last scanned block is read again, as every catch-up does |
| TransferLog.UnreadDeploymentBlockIff | src/api/token-indexer.ts:439-446 | An empty index that stands at the deployment block is the replay of that block exactly when the block transfers no token |
| EditorIndex.RemoveKeepsInverse | src/api/token-indexer.ts:248-263 | Removing a token forgets it on both sides, touches nothing else, and keeps the maps inverse |
| EditorIndex.ReplaceKeepsInverse | src/api/token-indexer.ts:292-306 | Replacing a token's editors, duplicate addresses included, keeps the maps inverse with no empty list and no repeated token |
| TokenIndexer.BurnsKeepInverse | src/api/token-indexer.ts:326-332 | All burns of a chunk keep the maps inverse |
| TokenIndexer.RefreshesKeepInverse | src/api/token-indexer.ts:359-361 | All editor refreshes of a chunk keep the maps inverse, whatever each read answers |
| TokenIndexer.AfterBurnsHolds | src/api/token-indexer.ts:326-332 | A chunk's burns forget exactly the burned tokens' editors |
| TokenIndexer.ReadTokenHolds | src/api/token-indexer.ts:359-361 | After distinct tokens' lists were read each holds what its own read answered, and its old list when that was unreadable |
| TokenIndexer.ChunkIsIndexed | src/api/token-indexer.ts:353-363 | After a chunk exactly the tokens with an editor event were read, once each, and hold what was answered; every other token holds what the burns left |
| TokenIndexer.ResumedScanCatchesUp | src/api/token-indexer.ts:451 | From every state the indexer can be in, the first start included, reading on from the last scanned block, or from the one after an exact replay, gives the one-shot replay |
| TokenIndexer.CompletedChunkIsGood | src/api/token-indexer.ts:353-366 | A completed chunk keeps replay, inverse maps and state file in order, whatever its reads and its save answer |
| TokenIndexer.ParsedCap | src/api/token-indexer.ts:59-64 | An advertised cap counts only when it is at least one block |
| TokenIndexer.EditorsHaveTheRole | src/api/token-indexer.ts:292-294 | The editors of a list are exactly the addresses that some entry gives the editor role |
| TokenIndexer.SaveLoadRoundTrip | src/api/token-indexer.ts:168-224 | A restart after a write that succeeded goes on from exactly the state that was written |
| TokenIndexer.Counts.GrowthFits | src/api/token-indexer.ts:391-394 | The fifth success in a row doubles a shrunken chunk up to the ceiling, and keeps the budgets |
| TokenIndexer.Counts.ChunkRecovers | src/api/token-indexer.ts:376-395 | Five chunks without a rejection per doubling that the ceiling takes, and five more, bring the chunk size back to it |
| TokenIndexer.TriesJoin | src/api/token-indexer.ts:382-402 | A fetch continues a scan in which no request gave up; it gives up itself exactly when its last request does |
| TokenIndexer.PatientScanEnds | src/api/token-indexer.ts:396-399 | With a provider that never fails and never rejects a single block no scan throws |
| TokenIndexer.Indexer.RemoveTokenEditors | src/api/token-indexer.ts:248-263 | The loop over one token's editors refines the removal that `RemoveKeepsInverse` is about: emptied lists disappear, other tokens stay |
| TokenIndexer.Indexer.RefreshTokenEditors | src/api/token-indexer.ts:270-313 | For every answer the index becomes what `RefreshKeepsInverse` is about: an unreadable list changes nothing, a missing or malformed one forgets the token |
| TokenIndexer.Indexer.ReplaceTokenEditors | src/api/token-indexer.ts:292-306 | The old editors are forgotten and the new ones entered on both sides, duplicate addresses once (meaning: `ReplaceKeepsInverse`) |
| TokenIndexer.Indexer.ApplyLogs | src/api/token-indexer.ts:318-340 | One batch in log order: last recipient owns, burns forget editors, the highest block is reported, and exactly the tokens with an editor event are to be refreshed, each once |
| TokenIndexer.Indexer.ShrinkChunk | src/api/token-indexer.ts:408-422 | A shrink always makes the chunk smaller but at least one; without a cap, or with one that is no smaller, it costs exactly one halving, and otherwise snaps to the cap |
| TokenIndexer.Indexer.GrowChunk | src/api/token-indexer.ts:391-394 | One more chunk is counted, and at most one growth; the budgets stay balanced |
| TokenIndexer.Indexer.FetchAdaptiveChunk | src/api/token-indexer.ts:382-402 | The retry loop ends on every oracle and returns exactly the logs of the span it reports; it throws exactly when its last request failed or was rejected for a chunk of one block, every earlier one having been rejected and followed by a smaller one; chunk and budgets stay in bounds |
| TokenIndexer.Indexer.SaveState | src/api/token-indexer.ts:206-224 | A write that succeeds stores the whole current state; one that fails leaves the file as it was |
| TokenIndexer.Indexer.ApplyChunk | src/api/token-indexer.ts:356-357 | One chunk's logs are applied, the index stands at the chunk's last block, and exactly the tokens with an editor event are reported, each once |
| TokenIndexer.Indexer.RunChunk | src/api/token-indexer.ts:356-363 | Apply, read the changed lists in order, save: the state the chunk theorems are about |
| TokenIndexer.Indexer.IndexChunk | src/api/token-indexer.ts:356-363 | After a completed chunk the index stands at its last block with the one-shot replay; each token with an editor event holds what its one read answered, all others what the burns left; the file holds all of it exactly when the write succeeded |
| TokenIndexer.Indexer.FetchNext | src/api/token-indexer.ts:355 | The logs of the next chunk, applied to the current ownership, give the one-shot replay up to its last block; it throws only at a request that gives up |
| TokenIndexer.Indexer.NextChunk | src/api/token-indexer.ts:354-365 | Fetching and indexing one chunk leaves a state from which scanning may go on, or a request gave up and nothing was indexed |
| TokenIndexer.Indexer.IndexRange | src/api/token-indexer.ts:347-372 | Ends on every oracle; replay is exact on success; throws exactly at the first request that gives up; without caps shrinks are at most the logarithm of the first chunk plus growths, five times the growths at most the chunks, and enough calm chunks restore the ceiling |
| TokenIndexer.Indexer.CatchUp | src/api/token-indexer.ts:429-464 | A catch-up never moves back and on success stands at or past the tip; it fails only when the tip cannot be read or a request gives up, so never with a patient provider; on success it holds the exact replay if and only if there was a block left to read or the state was a replay before |
| TokenIndexer.Indexer.LoadState | src/api/token-indexer.ts:168-204 | Loading takes over a saved state or changes nothing, and keeps the invariant |
| TokenIndexer.Indexer.Restart | src/api/token-indexer.ts:145-204 | A process restart from any file, readable or not, keeps the invariant |
| TokenIndexer.Indexer.GetSharedTokens | src/api/token-indexer.ts:525-536 | The fast reverse lookup reports, once each, exactly the tokens a scan over all editor lists would |
| PoolProtocol.ExpiredHead | src/api/storage/pinata-adapter.ts:114-117 | The prefix of expired entries, up to the first that has not expired |
| PoolProtocol.PruneRemovesEveryExpired | src/api/storage/pinata-adapter.ts:114-117 | On a pool in mint order, pruning the head removes every expired entry |
| PoolProtocol.StepKeepsShape | src/api/storage/pinata-adapter.ts:144-185 | Every atomic step keeps size, order, round budget and request sizes |
| PoolProtocol.StepAddsOnlySigned | src/api/storage/pinata-adapter.ts:119-185 | Every atomic step moves URLs between places without copying or losing one; only newly signed URLs appear, once |
| PoolProtocol.EveryRunIsSafe | src/api/storage/pinata-adapter.ts:111-185 | Every interleaving keeps the shape and has every signed URL in exactly one place |
| PoolProtocol.PoolIsBoundedAndSorted | src/api/storage/pinata-adapter.ts:144-169 | In every reachable state the pool is within its size and in mint order, and each answer has the size asked for |
| PoolProtocol.TakenEntriesAreYoung | src/api/storage/pinata-adapter.ts:278-304 | Whatever a request takes from the pool stays valid with the provider for more than the expiry margin |
| PoolProtocol.HeadPruningIsFiltering | src/api/storage/pinata-adapter.ts:114-117 | On a pool in mint order, dropping the expired head keeps exactly the usable entries |
| PoolProtocol.RequestTakesOldest | src/api/storage/pinata-adapter.ts:278-304 | In every reachable state a request is answered at once exactly when the usable entries suffice, with the oldest of them; otherwise it holds them all, waits for the rest, and leaves the refill alone |
| PoolProtocol.NoUrlIsHandedOutTwice | src/api/storage/pinata-adapter.ts:278-304 | No URL is answered to two requests, or twice to one |
| PoolProtocol.HandedOutOnce | src/api/storage/pinata-adapter.ts:278-304 | When every signed URL is in exactly one place, one URL is one credential of one answer |
| PoolProtocol.PushCatchesUp | src/api/storage/pinata-adapter.ts:144-169 | After a push the loop asks for exactly what is missing, or stops full or out of rounds |
| PoolProtocol.RoundsAdvanceByOne | src/api/storage/pinata-adapter.ts:145-185 | Every step moves the refill chain along its one course: rounds start at 0 when no refill is in flight, are minted, stamped and followed by the next; none is skipped or repeated |
| PoolProtocol.AtMostFiveRounds | src/api/storage/pinata-adapter.ts:136-185 | Under every interleaving the mint rounds begun since no refill was in flight are at most five, and exactly one more than the current round number |
| PoolProtocol.ChainIsNotReplaced | src/api/storage/pinata-adapter.ts:177-185 | Single flight: while a refill chain is in flight, requests and time leave it alone |
| PoolProtocol.AnswerTopsUp | src/api/storage/pinata-adapter.ts:278-298 | Whenever a request is answered, the pool is full or a chain is minting for it, unless a chain was just closing |
| PoolProtocol.AnswerRestarts | src/api/storage/pinata-adapter.ts:177-185 | An answered request that finds no chain in flight leaves a full pool, or a new chain that asks for exactly what is missing |
| PoolProtocol.ClosedChainRestarts | src/api/storage/pinata-adapter.ts:181-183 | Clearing a closing chain changes nothing else, and the next answered request on a short pool starts another |
| PoolProtocol.OwnStepAdvances | src/api/storage/pinata-adapter.ts:144-183 | Each step of a chain itself, a failed mint included, brings it closer to its end; nothing else moves it |
| PoolProtocol.EveryChainEnds | src/api/storage/pinata-adapter.ts:136-183 | Whatever else happens in between, a chain takes at most eleven steps of its own until none is in flight |
| CredentialPool.Pool.constructor | src/api/storage/pinata-adapter.ts:111-189 | Construction schedules the first refill and establishes the invariant |
| CredentialPool.Pool.PruneExpired | src/api/storage/pinata-adapter.ts:114-117 | The shift loop drops exactly the expired head |
| CredentialPool.Pool.RefillFrom | src/api/storage/pinata-adapter.ts:145-149 | A round prunes, then asks for exactly the shortfall, or ends the chain when the pool is full or the rounds are spent |
| CredentialPool.Pool.ScheduleRefill | src/api/storage/pinata-adapter.ts:177-185 | With a chain in flight nothing happens; otherwise a chain starts exactly when the pool is short |
| CredentialPool.Pool.MintUploadCredentials | src/api/storage/pinata-adapter.ts:278-304 | A request takes the oldest unexpired entries and waits only for its shortfall; one and many credentials alike |
| CredentialPool.Pool.RequestMintResolved | src/api/storage/pinata-adapter.ts:119-126 | A suspended request receives and stamps its own URLs and keeps those it held; pool and refill stay |
| CredentialPool.Pool.RequestResume | src/api/storage/pinata-adapter.ts:297-304 | The answer holds exactly the number asked for: the held URLs, then the minted ones |
| CredentialPool.Pool.RequestMintRejected | src/api/storage/pinata-adapter.ts:292-296 | A failed own mint rejects the request; its held URLs go to nobody else, and no top-up is triggered |
| CredentialPool.Pool.RefillMintResolved | src/api/storage/pinata-adapter.ts:119-126 | A refill round holds as many stamped URLs as it asked for, before they are pooled |
| CredentialPool.Pool.RefillMintRejected | src/api/storage/pinata-adapter.ts:149-155 | A failed refill round ends the loop and changes nothing else |
| CredentialPool.Pool.RefillPush | src/api/storage/pinata-adapter.ts:156-160 | The stamped entries enter the pool at its young end, then the next round begins |
| CredentialPool.Pool.RefillClose | src/api/storage/pinata-adapter.ts:181-183 | The promise is cleared and nothing else changes (what that allows: `PoolProtocol.ClosedChainRestarts`) |
| GenerationTasks.Find | src/api/generation-tasks.ts:116-130 | An entry is found exactly when it is the caller's, unexpired and in the wanted status |
| GenerationTasks.LookupKeepsEntryIff | src/api/generation-tasks.ts:116-130 | A lookup leaves other tasks alone, and its own target exactly when it has not expired |
| GenerationTasks.ExpiredIsInvisible | src/api/generation-tasks.ts:50-55 | Dropping expired entries, by sweep or lookup, never changes what any later lookup finds |
| GenerationTasks.TaskRegistry.RegisterTask | src/api/generation-tasks.ts:62-94 | A fresh id gets its entry, all others stay |
| GenerationTasks.TaskRegistry.UpdateTaskEntry | src/api/generation-tasks.ts:101-109 | Only the owner's entry is patched |
| GenerationTasks.TaskRegistry.GetTaskInStatus | src/api/generation-tasks.ts:116-130 | Finds exactly the caller's unexpired entry in the wanted status; an expired target is dropped whoever asks |
| GenerationTasks.TaskRegistry.MarkTaskComplete | src/api/generation-tasks.ts:146-151 | The owner's task can be looked up as completed for exactly one full TTL from now and never again as running; another wallet's call changes nothing; all other lookups stay |
| GenerationTasks.TaskRegistry.EvictTask | src/api/generation-tasks.ts:168-170 | No lookup by anyone finds the task any more; every other lookup answers as before |
| GenerationTasks.TaskRegistry.Sweep | src/api/generation-tasks.ts:50-55 | Exactly the expired entries go |
| AnimationPresets.FindIn | src/api/animation-presets.ts:91-95 | The preset of that id, or proof that there is none |
| AnimationPresets.Misfits | src/api/assets/generate-node.ts:730-731 | Exactly the requested presets that do not fit; empty exactly when all fit |
| AnimationPresets.FittingPresetIsListed | src/api/animation-presets.ts:97-110 | What fits is a listed preset for exactly the reported skeleton, and not tied to another rig model |
| AnimationPresets.FitsOneSkeleton | src/api/animation-presets.ts:97-110 | A preset fits one skeleton only |
| AnimationPresets.FitsUsedModelIff | src/api/animation-presets.ts:102-110 | Presets that passed the check still fit the model really used exactly when none is tied to another model |
| AnimationPresets.HonouredModelFits | src/api/animation-presets.ts:102-110 | With an explicit model that is honoured nothing can stop fitting |
| AnimationPresets.AutomaticModelCanMisfit | src/api/animation-presets.ts:54-110 | With no model chosen a listed preset passes the check and misfits the generic rig |
| AnimateChain.RegisteringKeepsInv | src/api/generation-tasks.ts:62-94 | A fresh entry of another provider has no paid calls and keeps the invariant |
| AnimateChain.AcceptingKeepsInv | src/api/assets/generate-node.ts:471-525 | Registering a task as its request asked for keeps the invariant |
| AnimateChain.ShortcutKeepsInv | src/api/assets/generate-node.ts:430-448 | The retarget-only shortcut keeps the invariant |
| AnimateChain.PostKeepsInv | src/api/assets/generate-node.ts:963-986 | Every request keeps the invariant, whatever the provider answers |
| AnimateChain.FromRigCheckKeepsInv | src/api/assets/generate-node.ts:794-827 | Every outcome of a finished rig check keeps the invariant |
| AnimateChain.FromRigKeepsInv | src/api/assets/generate-node.ts:846-865 | Every outcome of a finished rig keeps the invariant |
| AnimateChain.PollKeepsInv | src/api/assets/generate-node.ts:1054-1071 | Every poll by anyone keeps the invariant |
| AnimateChain.EveryRunKeepsInv | src/api/assets/generate-node.ts:835-1071 | The invariant of phases, entries and paid calls holds over every sequence of requests, polls, cancels and sweeps |
| AnimateChain.PaidStepsStartOnce | src/api/assets/generate-node.ts:809-856 | Of any two paid calls of one task the first is its rig and the second its retarget |
| AnimateChain.RetargetFollowsRig | src/api/assets/generate-node.ts:416-448 | Every retarget was preceded by the rig it works on: the task's own, or that of a completed rig-only task of the same wallet |
| AnimateChain.RestrictedTasksStayRestricted | src/api/assets/generate-node.ts:761-787 | A check-only task starts no paid step; a rig-only task never starts a retarget |
| AnimateChain.RigStartsOnlyWithFittingPresets | src/api/assets/generate-node.ts:728-739 | Unless rig-only, a rig starts only if every requested preset fits the reported skeleton |
| AnimateChain.PaidStepsFollowRequest | src/api/assets/generate-node.ts:446-856 | Over every run a paid call is what the request of its task asked for: a rig only for a source request to animate that is no rig check, with its rig model and its fitting presets; a retarget never for a rig-only request, with its presets and placement, onto its own rig or the one it names |
| AnimateChain.RigCheckIsFree | src/api/assets/generate-node.ts:487-495 | A request for a rig check with no other action, as the request schema demands, never starts a paid step |
| AnimateChain.CompletedAnimateIsTerminal | src/api/assets/generate-node.ts:994-1016 | Every completed animate entry stands at retarget, or at rig when rig-only |
| AnimateChain.ShortcutUsesFinishedRig | src/api/assets/generate-node.ts:416-427 | The shortcut only ever uses a completed rig-only task of the same wallet that was never retargeted itself |
| AnimateChain.PhasesOnlyMoveForward | src/api/assets/generate-node.ts:794-865 | A step moves a task's phase by at most one, never back, and only a poll by its owner moves it |
| AnimateChain.OthersPollKeepsEntryIff | src/api/generation-tasks.ts:116-130 | A poll by another wallet starts nothing and leaves the entry alone exactly when it has not expired |
| AnimateChain.PollTouchesOneTask | src/api/assets/generate-node.ts:1263-1302 | A poll of one task never changes another |
| AnimateChain.PollHasEffect | src/api/assets/generate-node.ts:1263-1302 | From every state with the invariant a poll touches its own task only, moves it by at most one phase for its owner, and makes at most one paid call, justified and in order |
| AnimateChain.FoundRigIsFinished | src/api/assets/generate-node.ts:416-427 | Whatever the shortcut finds is a finished rig-only task of the caller, not retargeted itself |
| AnimateChain.ShortcutIff | src/api/assets/generate-node.ts:416-427 | The shortcut finds a rig exactly when the request asks to retarget and names a finished rig of the caller |
| AnimateChain.PostHasEffect | src/api/assets/generate-node.ts:963-986 | A request is accepted exactly when the calls it needs succeed, registers its task as it asked for, and starts nothing paid but, exactly when it names a finished rig of the caller, a retarget of that rig with its own presets |
| AnimateChain.ShortcutChecksNoPreset | src/api/assets/generate-node.ts:430-448 | The shortcut accepts and retargets whatever presets are requested |
| AnimateChain.RetargetCanMisfit | src/api/assets/generate-node.ts:780-856 | A run of three steps in which a retarget starts with a preset that passed the check and misfits the model really used |
| AnimateChain.SomeRetargetMisfits | src/api/assets/generate-node.ts:780-856 | Such a retarget is reachable with a listed preset |
| GenerationRoutes.Generations.FindRig | src/api/assets/generate-node.ts:416-427 | A found source is a completed, unexpired rig-only task of the caller that was never retargeted; the lookup drops nothing that could still be found |
| GenerationRoutes.Generations.TryRetargetOnly | src/api/assets/generate-node.ts:430-464 | The shortcut answers exactly when the request names a finished rig of the caller and asks to retarget it |
| GenerationRoutes.Generations.HandleTripoRequest | src/api/assets/generate-node.ts:963-986 | Keeps the run invariant; the request is accepted exactly when the calls it needs succeed; its task is owned by the caller, running, and registered as the request asked; the only paid call it may start is the retarget it asks for; other tasks stay unless expired |
| GenerationRoutes.Generations.StartFollowUpOrFresh | src/api/assets/generate-node.ts:471-525 | Keeps the run invariant and starts nothing paid; accepted exactly when upload and call succeed; a rig check is registered check-only, an animate request with its own flags, presets and model, anything else as a plain generation |
| GenerationRoutes.Generations.AdvanceFromRigCheck | src/api/assets/generate-node.ts:761-827 | Keeps the run invariant and touches no other task; the verdict is exactly the one the probe flag, the report and the presets demand; the paid rig starts exactly when the phase moves on, and the task goes on with the rig the provider returned |
| GenerationRoutes.Generations.RigAnimationMismatch | src/api/assets/generate-node.ts:728-739 | A mismatch is reported exactly when the task is not rig-only and some preset does not fit |
| GenerationRoutes.Generations.AdvanceAnimateChain | src/api/assets/generate-node.ts:835-865 | Keeps the run invariant; a paid step starts exactly when the answer says the chain advanced, at most one, in order, by the owner; a rig is retargeted as soon as the provider takes it, with what the task holds |
| GenerationRoutes.Generations.CompletePollSuccess | src/api/assets/generate-node.ts:994-1016 | Keeps the run invariant; a task finishes exactly in a terminal phase with its result there, and can then be looked up as completed |
| GenerationRoutes.Generations.RespondToPoll | src/api/assets/generate-node.ts:1054-1071 | Keeps the run invariant; a task in flight is left alone, a failed one is gone, a succeeded one advances by at most one paid step or finishes |
| GenerationRoutes.Generations.OnPollError | src/api/assets/generate-node.ts:614-622 | An auth or credit failure ends the task for everyone, any other failure leaves it to the next poll; no other task and no paid call is touched |
| GenerationRoutes.Generations.AskProvider | src/api/assets/generate-node.ts:1278-1301 | The provider of a found task is asked unless it is a CAD provider that is not configured; an answer in flight leaves the task alone, a failed one ends it, a call that throws ends it exactly on an auth or credit failure |
| GenerationRoutes.Generations.PollTask | src/api/assets/generate-node.ts:1263-1302 | Keeps the run invariant for every answer and caller; touches no other task, moves the phase by at most one and only for the owner, starts at most one paid call and only one the task wants; anyone else is told that there is no task |
| GenerationRoutes.Generations.DeleteTask | src/api/assets/generate-node.ts:1229-1253 | Keeps the run invariant and starts nothing; removes the caller's running task, and anything else only if expired |
| BufferPacking.PartSitsAtBase | src/api/assets/generate-node.ts:119-149 | Each decoded buffer sits unchanged in the chunk at the offset noted for it |
| BufferPacking.ChunkLengthIsTheSum | src/api/assets/generate-node.ts:149 | The chunk is as long as the decoded buffers together |
| BufferPacking.ViewInRangeKeepsItsBytes | src/api/assets/generate-node.ts:140-147 | A view within its buffer denotes the same bytes of the single chunk |
| BufferPacking.ViewKeepsItsBytesIff | src/api/assets/generate-node.ts:140-147 | Any view with a valid index keeps its bytes exactly when it is in range, empty, or has nothing after its buffer to run into |
| BufferPacking.OverrunningViewChanges | src/api/assets/generate-node.ts:140-147 | A concrete overrunning view that reads its neighbour's bytes afterwards |
| BufferPacking.ViewKeepsItsAlignmentIff | src/api/assets/generate-node.ts:119-147 | A view keeps its offset modulo 4 exactly when its buffer starts at a multiple of 4 in the unpadded chunk |
| BufferPacking.WholeWordsStayAligned | src/api/assets/generate-node.ts:119-134 | Buffers whose lengths are multiples of 4 all start at one |
| BufferPacking.OddBufferMisaligns | src/api/assets/generate-node.ts:119-147 | A one-byte first buffer puts the second buffer's views off alignment |
| BufferPacking.ValidateComposedUris | src/api/assets/generate-node.ts:103-116 | Accepted exactly when no buffer and no image names anything but data |
| BufferPacking.DecodeBuffers | src/api/assets/generate-node.ts:119-134 | The decoded buffers in order, each with its offset in the chunk |
| BufferPacking.RewriteView | src/api/assets/generate-node.ts:142-145 | One view rewritten in place, unless its index is 0 or out of range |
| BufferPacking.PackComposedBuffers | src/api/assets/generate-node.ts:118-150 | In place: the concatenated chunk, the emptied buffers with their lengths, and every in-range view still denoting its bytes |
| CadQuota.DailyLimitOf | src/api/cad-quota.ts:100-104 | A usable limit is itself, an unusable one 0, so that it refuses everything |
| CadQuota.LockTtlOf | src/api/cad-quota.ts:208-212 | An enforced TTL is always positive |
| CadQuota.TtlCoversRequestIff | src/api/cad-quota.ts:189-229 | The lock outlives the longest request exactly when no shorter override is configured |
| CadQuota.PruningKeepsToday | src/api/cad-quota.ts:133-137 | Pruning never touches the current day or a later one |
| CadQuota.StepCounts | src/api/cad-quota.ts:237-305 | One call keeps all counters within 0 and the limit and moves one wallet's day as recorded; a restart counts from what it can read |
| CadQuota.CounterIsNetAdmissionsIff | src/api/cad-quota.ts:112-305 | Over any run a wallet's counter is its admissions minus effective refunds after every call, if and only if no restart reads back another count for that wallet and day than memory had |
| CadQuota.UsedIsNetAdmissions | src/api/cad-quota.ts:237-305 | The final counter of any run with faithful restarts, untouched by pruning, other wallets and failed saves |
| CadQuota.RestartForgetsUnsavedUnit | src/api/cad-quota.ts:145-148 | A concrete run in which a restart does: a charge whose save failed is lost |
| CadQuota.HeaderReportsWhatIsLeft | src/api/cad-quota.ts:308-319 | With faithful restarts net admissions stay within 0 and the limit and the header reports the rest |
| CadQuota.LockStaysOrExpires | src/api/cad-quota.ts:243-269 | With no release of its token and no restart a lock stays, or more than the TTL passes |
| CadQuota.AdmissionsAreFarApart | src/api/cad-quota.ts:237-286 | Two admissions with neither a release of the first one's token nor a restart between them are more than the TTL apart |
| CadQuota.DerivedTtlOutlastsRequest | src/api/cad-quota.ts:189-229 | Under the derived TTL that is more than attempts times provider timeout (again without a restart between) |
| CadQuota.LiveLockGoesIff | src/api/cad-quota.ts:43-286 | While its TTL runs a lock is lost exactly through a release of its token or a restart |
| CadQuota.RestartAdmitsSecondRequest | src/api/cad-quota.ts:43-44 | A concrete run in which a restart lets a second request in at once |
| CadQuota.RefundKeepsPromiseIff | src/api/cad-quota.ts:288-305 | The refund of an admission does what the comment promises exactly when it comes on the admission's own day or nothing was used today; otherwise today's count falls by one |
| CadQuota.AcquireHasEffect | src/api/cad-quota.ts:237-275 | Admitted exactly without a live lock and with a unit left; then one unit is charged and the lock taken with a new token; refusals charge nothing; other wallets keep lock and count |
| CadQuota.LateRefundHappens | src/api/cad-quota.ts:288-305 | A concrete run in which a refund of yesterday's unit takes today's |
| CadQuota.QuotaStore.PruneAndSave | src/api/cad-quota.ts:133-149 | Exactly the wallets not seen for two days go, and a successful write makes the file equal to memory |
| CadQuota.QuotaStore.ProcessRestart | src/api/cad-quota.ts:112-130 | Locks are gone; counting goes on from the file, or from nothing when it cannot be read |
| CadQuota.QuotaStore.AcquireCadSlot | src/api/cad-quota.ts:237-275 | Admits exactly without a live lock and below the limit, charges one unit and takes the lock with a new token; a refusal charges nothing; other wallets keep their locks and today's counts |
| CadQuota.QuotaStore.ReleaseCadSlot | src/api/cad-quota.ts:282-286 | The right token frees the wallet at any time and under any options; a stale one changes nothing; other wallets keep their locks |
| CadQuota.QuotaStore.RefundCadUnit | src/api/cad-quota.ts:296-305 | Today's count falls by one unless it is 0; other wallets' counts of today and all locks stay |
| CadQuota.QuotaStore.CadQuotaHeaders | src/api/cad-quota.ts:308-319 | The remaining budget, and a reset time that is the first second of the next UTC day |
| SiweNonces.NonceStays | packages/wallet/src/siwe.ts:178-214 | An accepted nonce stays in the store until its TTL has passed, wherever cleanups fall |
| SiweNonces.SameNonceIsFarApart | packages/wallet/src/siwe.ts:178-214 | Two acceptances of one nonce are at least the nonce TTL apart |
| SiweNonces.MessageIsAcceptedOnce | packages/wallet/src/siwe.ts:163-216 | With the age limit below the nonce TTL no signed message is accepted twice in any run |
| SiweNonces.ShortTtlAllowsReplay | packages/wallet/src/siwe.ts:163-216 | Otherwise, on any server with a supported chain, some message is accepted twice |
| SiweNonces.NoReplayIff | packages/wallet/src/siwe.ts:163-216 | Replay is impossible exactly when the age limit is below the nonce TTL, or no message is ever fresh |
| SiweNonces.AcceptedMessageIsBound | packages/wallet/src/siwe.ts:129-211 | An accepted message names this server's host, with or without scheme, and a supported chain, is a fresh version 1 message for a well-formed address with an unused nonce, and was signed for it |
| SiweNonces.NonceStore.CleanExpiredNonces | packages/wallet/src/siwe.ts:98-102 | Exactly the expired nonces go |
| SiweNonces.NonceStore.VerifySiwe | packages/wallet/src/siwe.ts:107-217 | Accepts exactly well-formed, fresh, unused and signed messages; acceptance stores the nonce for its TTL; no outcome loses a live nonce or stores another one |
| RateLimiter.TableHoldsLastWindow | src/api/rate-limiter.ts:185-190 | While a key's last window is open the table holds exactly its count, whatever was cleaned up |
| RateLimiter.PassesIffWindowHasRoom | src/api/rate-limiter.ts:179-217 | A request passes exactly when the open window of its key has counted fewer requests than the limit, refused ones included |
| RateLimiter.PassesAreBounded | src/api/rate-limiter.ts:179-217 | Passes in an interval of one window length, by where the key's last window starts |
| RateLimiter.FewerThanTwiceTheLimit | src/api/rate-limiter.ts:179-217 | Any half-open interval of one window length holds at most twice the limit minus one passed requests per key |
| RateLimiter.BoundIsReached | src/api/rate-limiter.ts:179-217 | A run with limit 2 in which three requests pass within one window length |
| RateLimiter.CleanupsAreInvisible | src/api/rate-limiter.ts:171-176 | No later request can tell tables with and without cleanups apart |
| RateLimiter.CleanupsNeverChangeAVerdict | src/api/rate-limiter.ts:171-200 | The pass or deny sequence does not depend on where cleanups ran |
| RateLimiter.Limiter.Middleware | src/api/rate-limiter.ts:179-217 | The verdict, the remaining count and a reset time that is the window's end rounded up to a second |
| RateLimiter.Limiter.CleanUpExpired | src/api/rate-limiter.ts:171-176 | Exactly the closed windows go |
| ChatWindow.StoredIsShort | src/api/chat-proxy.ts:379-391 | The stored list never exceeds ten entries |
| ChatWindow.StoredIsWindowOfHistory | src/api/chat-proxy.ts:384-391 | The pruned list decides as the whole history of accepted messages would |
| ChatWindow.AcceptsIffFewerThanTen | src/api/chat-proxy.ts:384-391 | A message is accepted exactly when fewer than ten were accepted in the last minute, over all sessions of the wallet |
| ChatWindow.ElevenSpanAMinute | src/api/chat-proxy.ts:384-391 | Any eleven consecutive accepted messages of a wallet span at least a minute |
| ChatWindow.MessageWindow.AllowMessage | src/api/chat-proxy.ts:379-391 | The loop keeps exactly the recent timestamps in order; a refusal leaves the store alone (meaning: `AcceptsIffFewerThanTen`) |
| ChildRefs.CoveredByMatchedAncestor | frontend/src/js/engine/child-refs.ts:58-66 | The pointer walk answers exactly whether some matched anchor lies above |
| ChildRefs.RootsCoverEveryMatch | frontend/src/js/engine/child-refs.ts:53-66 | Every match is an uncovered match or lies under one |
| ChildRefs.ReloadRoots | frontend/src/js/engine/child-reload.ts:8-14 | The anchors reloaded are exactly the uncovered matches, each once; none lies under another and together they cover every match |

## Left out

- FullWalk.CleanWalkIsExact: on tame stores only; on any other store `FullWalk.CleanWalkCollects` says what is collected. Which further CIDs happen to be collected there depends on the order of the walk.
- ManifestStore.EmbeddedRefs: which ipfs:// CIDs a document names is a set attached to the document; the extraction, decompression and JSON parsing are not modelled.
- ManifestWalk.AssetManifestAdds: `getSceneNodes` is not part of this model; a scene is a list of nodes or cannot be iterated. A `prev` link is a string.
- GcHistory.UnpinnedOnlyAfterGrace: for a positive grace period; without one no earlier run is needed, as `GcHistory.FirstRunUnpinsIff` says.
- IpfsGc.BuildReachableSet: the number of processed tokens is only reported; no contract says that it counts the live tokens with a URI.
- WalkErrors.CleanWalkIff: on stores without nested collections and markers, with chains within the budget; elsewhere `ReadableWalkIsClean` and `FullWalk.CleanWalkHasRead` give the two directions apart, since which document a walk comes across first decides what it reads.
- IpfsGc.Collector.RunIpfsGC: live tokens and storage are one fixed snapshot per run; option parsing and the environment are left out.
- TokenIndexer.Indexer.CatchUp: one catch-up at a time; callers that share an in-flight catch-up, the poll timer, and which error texts count as range rejections are left out.
- TokenIndexer.Indexer.RefreshTokenEditors: the list read is whatever the chain answers at that moment, not the list at the log's block.
- RateLimiter.FewerThanTwiceTheLimit: one fixed integer limit per limiter; limits that depend on the request are left out of the bound.
- SiweNonces.NonceStore.VerifySiwe: one call at a time. The parser and the signature verifier are answers.
- GenerationRoutes.Generations.PollTask: one poll at a time; two overlapping polls of one task are left out.
- BufferPacking.DecodeBuffers: a data URI is its decoded bytes; base64 is not modelled.
- ChildRefs.ReloadRoots: which anchors match an update is arbitrary; `childRefMatchesUpdate` and the legacy reference shapes are left out.
- Token indexer queries `getOwnedTokens` and `getStats`: plain scans of the ownership map.
- CAD generation beyond admission: the provider, its settlement callback and the design payload.
- Chain reorganisations.
- HTTP routing, headers other than the quota and limiter numbers, logging, metrics, WebSocket session timers.
- File system details other than all-or-nothing saves; the paging of pinned-file listings.
- Animation preset labels, categories and motion texts.
