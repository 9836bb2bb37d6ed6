# Verified model of the ORAS Go library

ORAS copies content-addressed graphs (manifests, indexes, layers) between stores, many goroutines at a time, and
keeps indexes beside the content: a graph of predecessors, a map of tags, and the referrers index of a registry.
This project models that core in Dafny and proves what the library promises about it.

| part | modules |
|---|---|
| descriptors, the edge relation, graphs | `Content`, `Digraph`, `Layout`, `Strings` |
| concurrent copy of a graph | `CopyMachine`, `CopyInvariant`, `CopySafety`, `CopyEvents`, `CopyProgress`, `CopyResult`, `CopySchedules`, `ForeignLayers` |
| extended copy | `FindRoots`, `ExtendedCopy` |
| referrers index: change lists, merging of concurrent updates | `Referrers`, `MergeMachine`, `MergeInvariant`, `MergeRegistry`, `MergeGarbage`, `MergeProgress`, `MergeBatching` |
| OCI layout store: graph index, tags, deletion, garbage collection, `index.json` | `GraphMemory`, `Resolver`, `IndexAll`, `StoreDelete`, `DeleteOutcome`, `IndexFile`, `StoreGC`, `StoreLoad`, `OciStore` |
| verified reading, in-memory store | `VerifiedRead` |
| authentication: single fetch, token cache, scopes | `Once`, `TokenCache`, `Scopes` |

How the source is represented:

- Identity of content is the triple of media type, digest and size. A blob decodes to the descriptors it names, or does
  not decode. Hashing is a function parameter. Blob files of a layout are keyed by digest.
- The concurrent protocols (copy, merge, once, token cache) are step relations: one step is what one goroutine does
  between two points at which another can interfere. A theorem about a reachable state holds for every interleaving,
  every point of failure and every moment of cancellation. A task fails whenever its `Fault` or `failure` step is taken.
- Code that works on its own state is a class or a method with loops: the graph index, the resolver, the store, the
  verifying reader, the in-place compaction of slices, the search for roots. Go's map iteration order is an arbitrary
  choice in each pass. `IndexBelow` chooses in each pass which of the concurrent tasks goes on.
- Writing files can fail at any time. Methods of the store take a flag `sound`: on a sound disk no write fails, and the
  contract then says exactly when the operation succeeds. Deletion with garbage collection is the exception, see below.
- Acyclicity is the existence of a rank that decreases along edges. It is assumed only where it is needed: for the
  absence of deadlock, for termination, and where an ancestor has to lie below a root.

Where the code differs from what one would expect, the model follows the code:

- Loading `index.json` restores every reference in every order of its entries exactly if no reference is the digest of
  other content (`IndexFile.RoundTripExact`). Tags survive garbage collection under exactly the same condition
  (`StoreGC.RebuildKeepsTags`). `IndexFile.AmbiguousExists` gives references that a store can have and that violate it.
- The second pass of garbage collection does not follow the chain of subjects. The variable that should advance is
  declared anew in each round, so the loop never ends for content without a tag whose subject is not in the graph.
  `StoreGC` gives that outcome the name `Hangs`. `RebuildIndex` says exactly on which inputs and orders it occurs, and
  `SomeOrderHangs` on which inputs there is such an order.
- Deletion queues referrers without looking at their tags, and can queue one node twice: because its subject goes, and
  because its last predecessor goes. The second removal finds no blob and the deletion reports not found. Think of the
  removal in rounds, each of which takes all that the rounds before have drawn along. What follows is about stores in
  which no reference gives the digest of a node to other content.
  - If both reasons come up in the same round for some node, every deletion fails (`DeleteOutcome.ClashFails`); there are
    such stores with nothing missing (`DeleteOutcome.ClashExists`).
  - If they come up so far apart that the node goes in a round between, nothing is queued twice. That, and blobs that are
    there and can be read, is the condition `DeleteOutcome.Clear`, under which deletion succeeds in every order.
  - In between the order in which Go walks its maps can decide. A referrer and an index that lists it, both with the
    target as subject, have a run that fails and a run that succeeds (`DeleteOutcome.ForkCanFail`,
    `DeleteOutcome.ForkCanSucceed`), so no condition on the input alone is exact. `Clear` is sufficient, not necessary.
- A change that names the empty descriptor leaves a list that is the same as before although an update is reported
  (`Referrers.EmptyAddRepeatsList`, exactly when in `Referrers.UpdateRepeatsKeys`). Such changes do not occur: only
  manifests reach the index.
- A push behind a size limit reads no further than the size of the descriptor. Trailing data does not make it fail
  (`VerifiedRead.LimitedPush`).
- A verifying reader treats a negative size as zero; `ReadAll` refuses it (`VerifiedRead.VerifyReader.Verify`).
- Requests for tokens of two registries can share a status key exactly if one name is the other followed by a space and
  the name of a scheme, at its end or before another space (`TokenCache.CollisionExact`). Then one `Set` can return the
  token that was fetched for the other (`TokenCache.ForeignToken`); what is cached is never mixed up.
- A scope with one colon is kept as it is in a longer list, and has its last part cleaned as actions when it is alone
  (`Scopes.OneColon`).

## Model

| member | source | states |
|---|---|---|
| CopyInvariant.StepInv | environment/copy.go:215-281 | every step of every task keeps the task tree, program counters, permits, claims, joins and failures consistent, and is never the "successor not committed" branch |
| CopyInvariant.SuccessorsCommitted | environment/copy.go:255-259 | a task that waits for done channels has seen each of its successors claimed |
| CopyInvariant.ExecutionInv | environment/copy.go:215-281 | the invariant holds in every state of every execution, failing and cancelled ones included |
| CopyInvariant.StepPermits | environment/internal/syncutil/limit.go:46-66 | permits taken always equal the regions not ended and never exceed the limit |
| CopyInvariant.CallerFails | environment/internal/syncutil/limit.go:70-94 | the caller of the group fails only if one of its goroutines failed or its context is done |
| CopySafety.ChildrenBeforeParents | environment/copy.go:215-279 | at every point of every run each node added to the destination has its non-foreign successors there; a closed destination stays closed |
| CopySafety.StepDoneIsStored | environment/copy.go:216-241 | a done channel is closed only for content that is in the destination |
| CopyEvents.ExactlyOnce | environment/copy.go:217-278 | a key is checked, fetched, pushed, mounted and reported at most once; after success exactly one hook reported each claimed key, skipped if and only if it was there before, copied if and only if it was pushed, mounted if and only if a mount took place, which it does of no manifest; what was copied was fetched exactly once |
| CopyEvents.CachedAtTransfer | environment/internal/cas/proxy.go:58-116 | at its transfer a node is in the cache if and only if it is a manifest, so what was read to find successors is not fetched again |
| CopyEvents.EmitsOwnKey | environment/copy.go:228-278 | a step causes no event of a key other than the one its task works on |
| CopyEvents.SuccessIsEverywhere | environment/internal/syncutil/limit.go:70-94 | when the caller returns without an error, every task has finished without one |
| CopyEvents.SuccessIsStored | environment/copy.go:215-281 | after success every claimed key is in the destination |
| CopyProgress.NoDeadlock | environment/copy.go:249-269 | on an acyclic graph with at least one permit, every reachable state with a goroutine left has an enabled step, also after failures and cancellation |
| CopyProgress.HolderMoves | environment/internal/syncutil/limit.go:46-66 | when all permits are taken a task that holds one, its region not ended, can move |
| CopyProgress.FailureClimbs | environment/internal/syncutil/limit.go:70-94 | a failure reaches a goroutine that is still there, or cancels the caller's group |
| CopyProgress.PermitBound | environment/internal/syncutil/limit.go:46-94 | at most `limit` tasks talk to a store at once, and all permits are returned when the goroutines are gone |
| CopyProgress.StepDecreases | environment/copy.go:215-281 | every step decreases a well-founded measure |
| CopyProgress.EveryScheduleTerminates | environment/copy.go:215-281 | under every schedule, whatever fails, all goroutines end |
| CopyProgress.CleanRunSucceeds | environment/copy.go:176-281 | under every schedule in which nothing fails and nobody cancels, the copy ends without an error |
| CopyResult.JobStored | environment/extendedcopy.go:136-145 | after success each dispatched root is stored, also one whose key another root's traversal claimed first |
| CopyResult.CopyResultExact | environment/copy.go:228-281 | after success the destination holds exactly what it held and what can be reached from the requested nodes without passing through content that was there |
| CopyResult.CopyIsComplete | environment/copy.go:176-281 | over a closed destination that is exactly the old content and the requested graphs |
| CopyResult.CopyTotallyCorrect | environment/copy.go:176-281 | such a schedule comes to a state in which the call has returned without an error and the destination holds exactly the old content and the requested graphs |
| CopyResult.EdgesAreNamed | environment/copy.go:243-247 | an edge is copied if and only if the manifest at its start names the content at its end and that is not a foreign layer |
| CopyResult.CopiedWhole | environment/copy.go:176-281 | after a successful copy over a closed destination, of every manifest in it that the source can decode: config and layers of an image, entries of an index or list, blobs of an artifact, and the subject are there too, foreign layers aside |
| CopyResult.CopiedForAReason | environment/copy.go:176-281 | and content that is new there was requested, or is not a foreign layer and a manifest in the destination names it |
| CopySchedules.SuppliedMoves | environment/copy.go:215-281 | if the source holds what has to be copied, every reachable state with a goroutine left has a step that does not fail |
| CopySchedules.PlainNeedsSource | environment/copy.go:243-278 | a copy without hooks that runs without a failure has found all of it in the source |
| CopySchedules.CopyPossible | environment/copy.go:176-281 | such a run exists if and only if every node that can be reached from a requested one without passing through content that is in the destination is in the source, and is, if it is a manifest, small enough for the cache and can be decoded |
| ForeignLayers.RemoveForeignLayers | environment/copy.go:522-533 | in place, the descriptors that are not foreign layers, in order: those whose keys the traversal goes on to process |
| FindRoots.PushUnvisited | environment/extendedcopy.go:204-211 | pushes predecessors one deeper, each one visited already or on the stack afterwards |
| FindRoots.FindRootMap | environment/extendedcopy.go:150-218 | the search ends; each root is above the node, within the depth limit, without predecessors or at the limit; each visited node is a root or has only visited predecessors; it fails only with the error of a lookup of the node or of one above it, at a depth below the limit |
| FindRoots.FindAllRoots | environment/extendedcopy.go:150-218 | one root per key, and exactly the roots of the search, with all that is said there about them and about failing under every limit; without a limit the result is exactly the ancestors or self without predecessors, and it fails exactly if looking up an ancestor fails |
| FindRoots.UnlimitedIsExact | environment/extendedcopy.go:150-218 | a complete search without a limit has visited all ancestors and found all roots |
| FindRoots.VisitedBelowRoot | environment/extendedcopy.go:150-218 | on an acyclic graph every visited node lies below a returned root, with or without a limit |
| ExtendedCopy.CopiedEdges | environment/copy.go:243-247 | the edges that are copied are those that do not lead to a foreign layer |
| ExtendedCopy.UpIsCopied | environment/extendedcopy.go:109-146 | a way up from a node that is not a foreign layer is made of edges that are copied on the way down |
| ExtendedCopy.ExtendedCopyComplete | environment/extendedcopy.go:109-146 | after success the destination holds every ancestor of the node and all that can be reached from it over non-foreign edges |
| ExtendedCopy.NodeCopied | environment/extendedcopy.go:109-146 | the node itself is there if and only if it was, or it is not a foreign layer, or it is its own root |
| Referrers.CleanReferrers | environment/registry/remote/referrers.go:148-166 | the list without empty entries and later duplicates, with the position of each key |
| Referrers.ApplyAtPositions | environment/registry/remote/referrers.go:168-186 | adding and blanking by position is, blanks aside, the fold of the changes over the list |
| Referrers.SameKeys | environment/registry/remote/referrers.go:188-201 | comparing sizes and looking up each entry decides equality of the key sets |
| Referrers.RemoveEmptyDescriptors | environment/registry/remote/referrers.go:207-221 | in place, the entries that are not empty, in order, cut off after as many as the hint says; nothing is cut if there are no more than that |
| Referrers.ApplyReferrerChanges | environment/registry/remote/referrers.go:147-204 | no update is reported if and only if the list was clean and its key set does not change; otherwise the result is the fold of the changes over the cleaned list |
| Referrers.UpdatedMeaning | environment/registry/remote/referrers.go:147-204 | the key set of the outcome is the fold of adds and removes over the old key set, without duplicates or empty entries |
| Referrers.CleanMembers | environment/registry/remote/referrers.go:148-166 | of the entries with one key the first is kept, unchanged, and no empty one |
| Referrers.UpdatedMembers | environment/registry/remote/referrers.go:147-204 | the outcome holds exactly the first old entry of each key that no change removes, and each descriptor that a change adds while its key is absent and that no later change removes, with artifact type and annotations |
| Referrers.UpdateIsNew | environment/registry/remote/repository.go:1494-1510 | an update that is pushed differs from the list that was fetched |
| Referrers.EmptyAddRepeatsList | environment/registry/remote/referrers.go:168-204 | with a change that names the empty descriptor it need not |
| Referrers.UpdateRepeatsKeys | environment/registry/remote/referrers.go:168-204 | an update of a clean list has the old key set if and only if the changes leave every other key as it was and the last change of the empty descriptor adds it |
| MergeInvariant.StepInv | environment/internal/syncutil/merge.go:67-140 | every step keeps the pool, the two batches, their members, their channels and the single main caller consistent |
| MergeInvariant.ExecutionInv | environment/internal/syncutil/merge.go:67-140 | the invariant holds in every state of every run |
| MergeInvariant.StepPool | environment/internal/syncutil/pool.go:39-64 | the pool counts the callers that use the merge object and they all use the same one |
| MergeInvariant.QuiescentIsFresh | environment/internal/syncutil/pool.go:39-64 | when the last caller leaves, the merge object is as good as new, so dropping it loses nothing |
| MergeInvariant.ResultStable | environment/internal/syncutil/merge.go:114-140 | the result of a batch does not change once it is known |
| MergeRegistry.NoLostUpdates | environment/registry/remote/repository.go:1453-1515 | the stored key set is always the initial one with the changes of all effective batches applied in batch order, those whose push or delete took effect and still reported a failure included; a caller that returned without an error belongs to one of them |
| MergeRegistry.FlattenOnce | environment/internal/syncutil/merge.go:82-101 | no change is applied twice |
| MergeRegistry.AllApplied | environment/registry/remote/repository.go:1453-1515 | if all callers returned without an error, every change has been applied exactly once |
| MergeRegistry.OwnView | environment/registry/remote/repository.go:1488-1510 | every step of the main caller keeps it working on the index it fetched; the index it deletes after a push is never the one under the tag, without a push it is that one and the update leaves nothing |
| MergeGarbage.SkippedNeverDeletes | environment/registry/remote/repository.go:1476-1510 | with SkipReferrersGC no caller ever comes to delete an index |
| MergeGarbage.SupersededIsGone | environment/registry/remote/repository.go:1499-1510 | without it, when all calls have returned nil, the index under the tag is the only one stored: every superseded one is gone |
| MergeGarbage.SkippedKeepsAll | environment/registry/remote/repository.go:1476-1510 | with it, in every state of every run, the indexes stored are exactly those that the tag has ever named |
| MergeGarbage.EmptyIndex | environment/registry/remote/repository.go:1476-1496 | without it an empty index is never pushed; with it a tag never goes away |
| MergeBatching.Batching | environment/internal/syncutil/merge.go:67-140 | every caller is in exactly one batch, each batch has one main caller and at most one is active, `resolve` sees exactly the items assigned before the commit, each caller gets the error of its own batch, and the messages still to send match the callers still waiting |
| MergeBatching.CommitIsFinal | environment/internal/syncutil/merge.go:104-112 | after its commit a batch gets no further items |
| MergeProgress.NobodyIsStranded | environment/internal/syncutil/merge.go:67-140 | in every reachable state with a caller left some step is possible |
| MergeProgress.StepMeasure | environment/internal/syncutil/merge.go:67-140 | every step decreases a measure |
| MergeProgress.EveryCallReturns | environment/internal/syncutil/merge.go:67-140 | once no new callers arrive, every call returns under every schedule |
| GraphMemory.Memory.constructor | environment/internal/graph/memory.go:60-66 | an empty, consistent index |
| GraphMemory.Memory.Index | environment/internal/graph/memory.go:164-191 | the node and its successors are recorded, and it is added below each of them; predecessors stay the exact inverse of successors, without empty sets, if and only if the node loses no successor it had |
| GraphMemory.Memory.Predecessors | environment/internal/graph/memory.go:107-121 | exactly the nodes that point to the given one, each a stored descriptor, once |
| GraphMemory.Memory.Remove | environment/internal/graph/memory.go:125-149 | the node is gone on both sides, and the result is exactly the indexed nodes whose only predecessor it was |
| GraphMemory.Unlink | environment/internal/graph/memory.go:131-145 | taking a node out of the predecessor sets of its successors, one after the other |
| GraphMemory.EdgeBothWays | environment/internal/graph/memory.go:34-57 | an edge is recorded from one side if and only if it is recorded from the other |
| Resolver.Memory.constructor | environment/internal/resolver/memory.go:38-43 | no references |
| Resolver.Memory.Resolve | environment/internal/resolver/memory.go:46-55 | the descriptor of a reference, or not found |
| Resolver.Memory.Tag | environment/internal/resolver/memory.go:58-70 | the reference resolves to the descriptor and is in the tag set of its digest; the old digest keeps a stale entry |
| Resolver.Memory.Untag | environment/internal/resolver/memory.go:73-87 | the reference is gone; every live reference is still in the tag set of its digest |
| Resolver.Memory.IsTagged | environment/content/oci/oci.go:586-592 | when it answers no, the digest is the only live reference |
| Resolver.TagSetMeaning | environment/content/oci/oci.go:586-592 | the two size tests decide whether the tag set holds anything besides the digest |
| Layout.SubjectIsSuccessor | environment/content/graph.go:50-122 | the subject of a manifest is one of its successors |
| Content.ChildrenAreNamed | environment/content/graph.go:50-122 | the successors of a decoded manifest are exactly its config and layers (image), its entries (index or list), its blobs (artifact) and its subject, by media type; anything else has none; it fails exactly for a manifest that does not decode |
| Layout.SuccessorsAreNamed | environment/content/graph.go:50-122 | the same for a manifest in the layout, which fails exactly if it is not stored, in the size of its descriptor, or does not decode |
| Layout.SubjectIsNamed | environment/internal/manifestutil/parser.go:67-84 | the subject is the one that the stored manifest names, for the three media types that can carry one, and it fails exactly if such a manifest is not stored or does not decode |
| IndexAll.ReadNode | environment/internal/graph/memory.go:164-191 | a node that can be read is indexed with its successors, and nothing else changes |
| IndexAll.IndexBelow | environment/internal/graph/memory.go:75-100 | under every schedule the indexed keys become the old ones and exactly those reachable through manifests that can be read, manifests only if they are stored; it fails only if something reachable cannot be read, and then has indexed only reachable nodes |
| IndexAll.BelowIsNamed | environment/internal/graph/memory.go:164-191 | the search goes from a manifest exactly to the content that its stored blob names |
| IndexAll.ReachedByChains | environment/internal/graph/memory.go:75-100 | reached is what a chain of successors leads to |
| StoreDelete.OneQueued | environment/content/oci/oci.go:174-196 | what the removal of a node newly draws along is queued |
| StoreDelete.QueuedIsDrawn | environment/content/oci/oci.go:174-196 | what is queued is a referrer of a removed manifest, or an orphan without a tag, of the store as it was |
| StoreDelete.StepReasons | environment/content/oci/oci.go:174-196 | so at every point of the loop everything removed or queued, besides the target, has such a reason |
| StoreDelete.StepRun | environment/content/oci/oci.go:170-196 | one pass of the queue keeps its invariant |
| StoreDelete.DoomedIsLeast | environment/content/oci/oci.go:165-199 | there is a least set that holds the target and is closed under referrers and untagged orphans |
| StoreDelete.DoomedForAReason | environment/content/oci/oci.go:165-199 | besides the target it holds only referrers of its manifests and orphans without a tag |
| StoreDelete.DrawnExactly | environment/content/oci/oci.go:174-196 | deletion draws along exactly the predecessors whose stored manifest names a removed manifest as its subject, and nodes without a tag all of whose predecessors are removed |
| StoreDelete.OnlyGarbageGoes | environment/content/oci/oci.go:165-222 | whether the deletion succeeds or fails, a removed node that is neither the target nor a referrer had all its predecessors removed and no live tag |
| StoreDelete.TaggedStays | environment/content/oci/oci.go:188-195 | whether it succeeds or fails, tagged content goes only as the target or as a referrer |
| StoreDelete.NoGarbageLeft | environment/content/oci/oci.go:60-65 | a node that lost all its predecessors is left only if a tag keeps it |
| StoreDelete.LeastIsDoomed | environment/content/oci/oci.go:165-199 | the order of the queue does not change what a successful deletion removes |
| DeleteOutcome.ClearHead | environment/content/oci/oci.go:170-196 | in a clear store no node that is yet to be removed is in the way of its own removal |
| DeleteOutcome.StepCounted | environment/content/oci/oci.go:174-196 | at every point of every deletion a node that is still there is in the queue once for each reason to remove it |
| DeleteOutcome.StaysRepeated | environment/content/oci/oci.go:170-196 | once a node is in the queue again, that lasts until a removal fails |
| DeleteOutcome.StepPhase | environment/content/oci/oci.go:170-196 | until then the queue takes one round after the other |
| DeleteOutcome.HeadUnclashed | environment/content/oci/oci.go:170-196 | and no node that it removes had two reasons in one round |
| DeleteOutcome.NotQueuedTwice | environment/content/oci/oci.go:174-196 | in a clear store a pass queues nothing that waits, or that has been removed |
| DeleteOutcome.StepTidy | environment/content/oci/oci.go:170-196 | one pass keeps all of this, or puts something in the queue again |
| DeleteOutcome.FollowerApart | environment/content/oci/oci.go:174-196 | chains of referrers do not make a store unclear: the last predecessor of a node goes a round after the node |
| DeleteOutcome.ListedLaterApart | environment/content/oci/oci.go:174-196 | nor do referrers of the target that a list points to, if the list refers to another referrer and so goes a round later |
| DeleteOutcome.StopGoing | environment/content/oci/oci.go:170-196 | stopping at any failure leaves what is promised of a failed deletion |
| DeleteOutcome.EndGoing | environment/content/oci/oci.go:170-199 | an empty queue means what is promised of a successful one |
| DeleteOutcome.ForkTarget | environment/registry/repository.go:147-226 | after the target, a referrer and an index that lists it can be queued in either order |
| DeleteOutcome.ForkFails | environment/content/oci/oci.go:174-196 | if the index comes first the referrer is queued again, and its second removal finds no blob |
| DeleteOutcome.ForkCanFail | environment/content/oci/oci.go:174-196 | every such store has a run in which it does |
| DeleteOutcome.ForkSucceeds | environment/content/oci/oci.go:174-196 | if the referrer comes first nothing is queued again and the queue runs empty |
| DeleteOutcome.ForkCanSucceed | environment/content/oci/oci.go:174-196 | every such store has a run in which it does, and which empties the graph |
| DeleteOutcome.ForkNotClear | environment/content/oci/oci.go:174-196 | such a store is not clear |
| DeleteOutcome.ForkExists | environment/content/oci/oci.go:174-196 | there is such a store, with a graph that its manifests give |
| DeleteOutcome.ClashFails | environment/content/oci/oci.go:165-199 | if some node has both reasons in one round, no deletion succeeds |
| DeleteOutcome.ClashReads | environment/content/graph.go:50-122 | in the example the graph is the one its manifests give |
| DeleteOutcome.ClashExists | environment/content/oci/oci.go:174-196 | in the example no blob is missing, and a referrer of a referrer clashes |
| OciStore.Store.constructor | environment/content/oci/oci.go:84-120 | a store over a directory, both automatisms on, nothing loaded yet |
| OciStore.Open | environment/content/oci/oci.go:84-120 | opens a directory with its index; it fails exactly if something below an entry cannot be read; an index that a store saved brings back the graph of exactly what its references reach, and, if no reference is the digest of other content, every reference with its artifact type and annotations |
| OciStore.Store.SaveIndex | environment/content/oci/oci.go:427-467 | what is written is one of the orders of the entries of the current references |
| OciStore.Store.Tag | environment/content/oci/oci.go:236-271 | stored content is tagged under the reference and its digest, and both join its tag set; missing content and the empty reference are refused and nothing changes |
| OciStore.Store.Untag | environment/content/oci/oci.go:310-331 | only a tag can be removed, not a digest; it leaves its tag set and all other references stay |
| OciStore.UntagAll | environment/content/oci/oci.go:203-210 | every reference to the content goes, the tag sets of other digests stay |
| OciStore.Store.Referrers | environment/registry/repository.go:147-226 | for a manifest exactly the predecessors of type image manifest, index or artifact manifest whose stored blob decodes with it as the subject; it fails exactly if a predecessor of such a type is not stored or does not decode; for anything else it is an error |
| OciStore.Store.DeleteOne | environment/content/oci/oci.go:202-222 | references, graph node and blob go; the result is exactly the nodes that lost their only predecessor |
| OciStore.Store.Unkept | environment/content/oci/oci.go:188-195 | the danglings without a tag |
| OciStore.Store.Pass | environment/content/oci/oci.go:170-196 | one pass of the deletion loop, exactly what it appends and in which order; on a sound disk it fails exactly if the blob is missing or a predecessor cannot be read |
| OciStore.Store.Turn | environment/content/oci/oci.go:170-196 | takes one node off the queue, keeps the invariant of the loop and removes a blob, or ends as a failed deletion |
| OciStore.Store.Delete | environment/content/oci/oci.go:165-199 | ends; on success the least set that holds the target and is closed under referrers and untagged orphans is gone from references, graph and blobs, among it, with garbage collection, every manifest whose stored subject is the target; no node of it had two reasons in one round, and a saved index stays in step; on an error only members of that set are gone, each for a reason; it succeeds on a sound disk if the store is clear, and without garbage collection exactly if the target has a blob |
| OciStore.DeletedIsGone | environment/content/oci/oci.go:165-222 | after a successful deletion no reference, graph node or blob is left of any manifest whose stored subject is a removed manifest, or of an untagged node that lost its last predecessor |
| OciStore.DeleteKeeps | environment/content/oci/oci.go:202-222 | deletion keeps the conditions under which the index survives saving and loading |
| IndexFile.SaveTags | environment/content/oci/oci.go:435-447 | one entry per tag, carrying its name, and the digests of tagged content |
| IndexFile.SaveIndex | environment/content/oci/oci.go:427-458 | one entry per tag, then one per digest without a tag, each once |
| IndexFile.SavedExactly | environment/content/oci/oci.go:427-458 | each entry of a saved index agrees with its reference in media type, digest, size, artifact type and every annotation but the ref name, which it carries exactly if the reference is a tag; each tag and each digest without one has exactly one entry |
| StoreLoad.LoadEntry | environment/content/oci/readonlyoci.go:173-185 | one entry: tagged by digest and by name, and everything below it indexed |
| StoreLoad.LoadIndex | environment/content/oci/readonlyoci.go:171-187 | the resolver after all entries is the fold of loading one entry, and the graph is exactly what can be reached from them; it fails exactly if something below an entry cannot be read |
| StoreLoad.LoadedGraph | environment/content/oci/readonlyoci.go:171-187 | after saving and loading, the graph holds exactly what the saved references reach |
| IndexFile.RoundTrip | environment/content/oci/oci.go:427-458 | loading what was saved gives the same references with the same content; a tag, and the digest of content without one, comes back with its artifact type and all annotations but the ref name, which is the tag itself or absent |
| IndexFile.SecondRoundTrip | environment/content/oci/readonlyoci.go:171-187 | a second round trip changes no tag |
| IndexFile.RoundTripExact | environment/content/oci/readonlyoci.go:171-187 | the round trip restores the content of every reference in every order if and only if no reference is the digest of other content |
| IndexFile.AmbiguousExists | environment/content/oci/oci.go:256-271 | there are references, made by two calls of `Tag`, that some order of the entries does not restore |
| IndexFile.TagKeeps | environment/content/oci/oci.go:256-271 | tagging keeps those conditions unless the reference is the digest of other content |
| IndexFile.UntagKeeps | environment/content/oci/oci.go:310-331 | untagging keeps them |
| StoreGC.IndexTagged | environment/content/oci/oci.go:534-551 | for every order of the references the rebuilt graph is exactly what can be reached from the tags, and the resolver is the fold of tagging them again in that order; it fails exactly if something below a tag cannot be read |
| StoreGC.Attach | environment/content/oci/oci.go:553-579 | content without a tag is kept if its subject is in the graph, dropped if it has none, does not come to an end exactly if its subject is not in the graph, and otherwise fails exactly if it or something below it cannot be read |
| StoreGC.ReferringExactly | environment/content/oci/oci.go:553-579 | the second pass looks exactly at digests that no tag refers to, and follows those whose stored manifest names a subject |
| StoreGC.IndexReferrers | environment/content/oci/oci.go:553-579 | the same for all references in any order: the first one that is stranded or cannot be read decides |
| StoreGC.RebuildIndex | environment/content/oci/oci.go:529-583 | when it ends, the graph is exactly what can be reached from the kept references, manifests only if they are stored; the resolver is the fold of tagging the kept references again in order; for every order it says, from the references and the stored manifests alone, whether it ends, fails or does not end |
| StoreGC.RebuildKeepsTags | environment/content/oci/oci.go:534-579 | every tag resolves as before in every order of the first pass if and only if no reference is the digest of other content |
| StoreGC.CarriedKeeps | environment/content/oci/oci.go:529-583 | a finished rebuild keeps the conditions under which references survive collection, saving and loading |
| StoreGC.SomeOrderHangs | environment/content/oci/oci.go:553-579 | some order makes it run for ever if and only if content without a tag names a subject that is not indexed below any tag, and everything below the tags can be read |
| StoreGC.StrandedExists | environment/content/oci/oci.go:553-579 | there is such a store: a referrer without a tag whose subject is not stored |
| StoreGC.Unfinished | environment/content/oci/oci.go:529-583 | without an end there is such content, and after a failure something that cannot be read |
| StoreGC.RebuiltExact | environment/content/oci/oci.go:529-583 | a key is in the rebuilt graph if and only if it can be reached from a kept reference and is not a manifest that is missing |
| StoreGC.KeptDigests | environment/content/oci/oci.go:479-483 | whatever is stored below a tag has its digest in the rebuilt graph |
| StoreGC.Sweep | environment/content/oci/oci.go:486-525 | only collectable blobs outside the graph go; without an error all of them |
| OciStore.Store.GC | environment/content/oci/oci.go:474-525 | on success exactly the collectable blobs outside the rebuilt graph are gone; with an error, too, nothing goes that cannot be collected, is in the graph or is needed by a tag; blobs that stay are unchanged, the resolver is that of the rebuild; it ends, fails or runs for ever exactly as the rebuild does, and then changes nothing unless it ended |
| VerifiedRead.VerifyReader.constructor | environment/content/reader.go:101-111 | nothing read, nothing verified |
| VerifiedRead.VerifyReader.Read | environment/content/reader.go:58-71 | delivers and hashes the next bytes of the stream, never past the size; an early end is unexpected and final |
| VerifiedRead.VerifyReader.EnsureEOF | environment/content/reader.go:137-144 | succeeds only if nothing is left |
| VerifiedRead.VerifyReader.Verify | environment/content/reader.go:74-98 | verified if and only if the content has the size, or is empty for a negative one, and the digest; every failure but an early call is final |
| VerifiedRead.ReadFull | environment/content/reader.go:120-128 | fills the buffer with exactly what was hashed, or fails |
| VerifiedRead.ReadAll | environment/content/reader.go:116-133 | for every way of cutting the stream into chunks, succeeds if and only if the stream has the size and the digest, and otherwise names the reason; no more is read than the stream lets through, and on success all of that |
| VerifiedRead.Cas.constructor | environment/internal/cas/memory.go:37-39 | an empty store |
| VerifiedRead.Cas.Push | environment/internal/cas/memory.go:52-69 | content gets in if and only if it matches its descriptor and is new; nothing is overwritten |
| VerifiedRead.Cas.Fetch | environment/internal/cas/memory.go:42-49 | what is fetched matches the descriptor |
| VerifiedRead.LimitedPush | environment/content/limitedstorage.go:35-45 | succeeds if and only if the size is within the limit and the first bytes of the stream match; content that is there already is reported as such and nothing is read; no entry exceeds the limit; at most the size is read from the stream, on success exactly what was stored |
| Once.NeverTwiceAtOnce | environment/internal/syncutil/once.go:49-74 | the action never runs twice at once |
| Once.CompletedForGood | environment/internal/syncutil/once.go:49-74 | after a completion that is not a cancellation the action never runs again and its outcome stays |
| Once.FirstIsUnique | environment/internal/syncutil/once.go:49-74 | at most one call returns true, and every outcome returned is the outcome of its action |
| Once.CompletionIsFirst | environment/internal/syncutil/once.go:62-69 | a call that completes the action returns true, with its outcome |
| Once.PanickedRan | environment/internal/syncutil/once.go:50-55 | only a call that ran the action can panic |
| Once.FailurePassesOn | environment/internal/syncutil/once.go:50-66 | a call whose action panics or is cancelled ends without an outcome, and every waiting call can run the action next |
| Once.NeverStuck | environment/internal/syncutil/once.go:49-74 | the token is never lost, also after cancellation and panic |
| TokenCache.CollisionExact | environment/registry/remote/auth/cache.go:105-109 | two registries have requests that share a status key if and only if one name extends the other by a space and a scheme, at the end or before another space |
| TokenCache.StatusKeyInjective | environment/registry/remote/auth/cache.go:105-109 | in particular, without spaces in registry names the status key identifies registry, scheme and key |
| TokenCache.StatusKeyCollision | environment/registry/remote/auth/cache.go:105-109 | two requests that share one |
| TokenCache.ExecutionInv | environment/registry/remote/auth/cache.go:103-141 | every state of every run of concurrent `Set` calls is consistent |
| TokenCache.TokenProvenance | environment/registry/remote/auth/cache.go:84-97 | a token that is returned was fetched for that registry, scheme and key, also across scheme changes and colliding names |
| TokenCache.StoredIsRead | environment/registry/remote/auth/cache.go:138-140 | a token that is stored is read back, unless the entry of the registry has been replaced |
| TokenCache.KeptIsRead | environment/registry/remote/auth/cache.go:121-141 | a call that keeps its token without interference returns it, and it is read back |
| TokenCache.KeptForgets | environment/registry/remote/auth/cache.go:127-137 | tokens of the same registry under another scheme are forgotten |
| TokenCache.KeptLeaves | environment/registry/remote/auth/cache.go:121-141 | tokens of the same registry and scheme with other keys are left as they were |
| TokenCache.KeptElsewhere | environment/registry/remote/auth/cache.go:121-141 | and so are tokens of other registries |
| TokenCache.FetchedIsCached | environment/registry/remote/auth/cache.go:110-141 | a token that was fetched is cached by the call that fetched it |
| TokenCache.QuietIsFresh | environment/registry/remote/auth/cache.go:103-119 | when no call is under way, no finished fetch is listed, so that the next call fetches anew |
| TokenCache.SetProvenance | environment/registry/remote/auth/cache.go:103-141 | so is the token that `Set` returns, fetched or shared, unless one of the two registry names extends the other; it always has the same status key |
| TokenCache.ForeignToken | environment/registry/remote/auth/cache.go:103-141 | for any two requests that share a status key there is a run in which one gets the token of the other |
| TokenCache.OneFetchAtATime | environment/registry/remote/auth/cache.go:110-117 | two calls never fetch for the same registry, scheme and key at once |
| Scopes.CleanActions | environment/registry/remote/auth/scope.go:291-325 | in place, the sorted list of the distinct actions without the empty one, or the wildcard alone |
| Scopes.Merge | environment/registry/remote/auth/scope.go:221-262 | the map holds for each resource exactly the actions that the scopes `type:name:actions` name; the other scopes are kept in order |
| Scopes.Render | environment/registry/remote/auth/scope.go:264-282 | one scope per resource with an action, no two alike |
| Scopes.CleanOne | environment/registry/remote/auth/scope.go:202-215 | a single scope with two colons becomes its canonical form; any other with a colon has its last part cleaned; one without stays |
| Scopes.CleanScopes | environment/registry/remote/auth/scope.go:197-287 | both paths compute the canonical form on scopes `type:name:actions`; of two or more scopes the others are kept, and the result is sorted |
| Scopes.OneColon | environment/registry/remote/auth/scope.go:202-244 | a scope with one colon comes out of both paths alike if and only if its last part is a sorted list of actions |
| Scopes.ParseRendered | environment/registry/remote/auth/scope.go:224-279 | a rendered scope parses to its resource and its actions |
| Scopes.CleanKeepsGrants | environment/registry/remote/auth/scope.go:190-196 | canonicalisation keeps what is granted on every resource |
| Scopes.CanonicalForm | environment/registry/remote/auth/scope.go:190-196 | two lists have the same canonical form if and only if they grant the same |
| Scopes.CleanIdempotent | environment/registry/remote/auth/scope.go:190-196 | a canonical list is its own canonical form |
| Strings.LessMeans | environment/registry/remote/auth/scope.go:285 | the order of the scopes is by the first character that differs, or a proper prefix first |

## Left out

- HTTP, retries, challenges, upload sessions and credential stores: the registry is a tag with atomic fetch, push and delete.
- The file store, tar extraction and platform selection: dominated by file-system calls.
- JSON, base64, regular expressions and real hashing: a blob is what it decodes to, hashing is a parameter.
- The pipe inside the caching proxy (the cache itself is part of the state of a copy), and mounting across repositories step by step: a transfer is one step that ends as copied, skipped by a hook, or mounted, or fails after any of its effects.
- Custom `FindSuccessors`, `MapRoot` and the tagging wrappers `Copy`, `ExtendedCopy`, `TagN`: they add no new protocol.
- Writers other than this client on a referrers tag: the theorems about updates assume that there are none, as the protocol does.
- The exact set of nodes visited under a depth limit: a node first reached on a longer path is closed there, so only what each root satisfies is stated, and that what was visited is a root or has only visited predecessors.
- `Push` of the OCI store and concurrent readers under its lock: deletion and garbage collection have exclusive access.
- Artifact types and annotations that `Referrers` copies into its results: deletion only looks at keys.
- DeleteOutcome.Clear: sufficient and not necessary; where the two reasons of a node are one round apart, whether some order fails is not decided by a condition.
- OciStore.Store.GC: a run that does not end is an outcome with a name, not a loop that diverges.
- VerifiedRead.LimitedPush: a stream that is limited already is not limited again.
- Scopes.Merge: keeps one map by resource where the source nests a map by name in a map by type.
- `OnceOrRetry`, `filterReferrers`, `listTags` and the referrers capability flag: easy members.
