# Verified model of DWPDSim

DWPDSim replays requests for key-value-cache blocks over one prefix tree. A block may have a copy in DRAM and at
most one on storage, in the SLC or the TLC tier. Policies decide what leaves memory and storage; the simulator
turns their decisions into reads, writes and trims, logs these in a trace, and a converter turns the trace into
device commands. This project models the parts of that program that hold its hard properties and proves them.

- **The prefix tree** (`forest`, `pruning`, `slot_tree`, `radix_tree`). A forest given by a parent map with creation
  ranks; its segments, the maximal single-child chains; and the slot tree with sibling lists and recycled slots that
  represents it in place.
- **The memory policies** (`memory_*`, `baseline_policy`, `subtree_counts`, `worker_barrier`, `context_policy`). The
  segment index and its repairs on every event, the recency list it must agree with, the search over groups and
  workers, the worker threads' barrier, the retention decision, and the context policy's record of requests and its
  choices (`context_history`).
- **The storage policy** (`storage_*`). The ordered segment index, with or without subtree counts, and the two scans
  it must agree with.
- **The shadow FTL** (`shadow_*`, `ghost_table`). The page-mapped log with greedy collection: invariant, conservation,
  termination, when it can run out of space, and the times that
  decide its victims; the table of recently lost blocks.
- **The simulator** (`allocator`, `trace`, `joining`, `simulator*`, `clock`). Accesses, eviction with its upward walk,
  atomic dumps, reclaim with nested relocation, pruning, background ticks. One invariant says that the trace replays to
  exactly the storage copies, that addresses are allocated once, that leaves hold copies and that relocations are
  complete; beside it, which limits every action keeps to and when an access migration does not.
- **The trace converter** (`trace_reader`, `commands`, `relocations`, `conversion`). The reader's checks, chunks and
  dependencies, the validator of relocations, and the theorems that say which simulated traces are read, and that they
  all pass the validator and stay in order.
- **The input side** (`batching`, `prefetch`). Cutting tables into batches, and the bounded producer-consumer queue as
  interleaved steps.

## How the model is built

State that the program updates in place is a class whose methods are proved against functions and predicates on
values; the properties are lemmas about those values. Decisions that rest on floating-point formulas are the answers
of arbitrary functions (`SimulatorRoom.Policies`), one answer to every question asked, and an answer that breaks the
policies' contract is replaced where it is used: `Proposed` (trim a nonempty unprotected segment of the target tier,
or move one out of SLC), `LimitOf` (at most the capacity), `BackgroundOf` (a segment in the tree), `Migration` (an SLC hit only) and
`EvictionDecision` (a segment with a block in memory). What an operation comes to is a predicate on the states before
and after, the policies' answers and the numbers of the questions asked meanwhile. Threads are interleaved atomic steps; a
thread tests its condition, sleeps, and is woken by a notification. Numbers are unbounded except in `clock`, where
the guard against overflow matters. Hash mixing is an arbitrary function.

Where the code and what one would expect of it differ, the code is modelled and the difference is proved:

- An access migration is sized before room is made and looked up again afterwards; it can then move more blocks than
  it was sized for, and take TLC beyond its capacity. `SimulatorMigration.MigrationOverrunNeeds` says under which
  condition on the state before the call, for all policies, `SomePolicyOverruns` that some policy does it,
  `MigrationExceeds` when the capacity is passed, and `SimulatorOverrun.Overrun` is a run in which it is. Nothing else
  takes a tier beyond its capacity (`SimulatorAccess.ExceedsOnlyByMigration`); every other action keeps to the limits
  that the storage policy answers.
- The trace of such a run is refused by the converter's reader (`Conversion.RunNotRead`), which checks addresses against
  the capacities; all other traces are read, given their times and streams (`Conversion.TraceReadExactly`).
- The geometry guard of the shadow FTL does not by itself keep it from running out of space
  (`ShadowGeometry.GuardAloneIsNotEnough`); the exact condition of a failing write is `ShadowHost.WriteKeeps`, a
  sufficient one on the host's pages is `ShadowHost.NeverOutOfSpace`, and one on the nominal capacity
  `ShadowGeometry.NominalEnough`.
- The tracker of hazards compares whole ranges: overlapping commands are ordered exactly if a chain of conflicts, chunks
  and declared dependencies connects them (`Commands.OrderedExactly`), so on ranges of different size they need not be
  (`Commands.PlainOrderedExactly`). Traces of the simulator use one aligned block size, for which they are
  (`Commands.OverlapsOrdered`).

In a contract `P(..) == true` states the predicate as a whole; it means the same as `P(..)`, but the verifier neither
splits nor unfolds it there, which keeps the methods of `Simulator.Sim` within a small resource limit.

## Model

| member | source | states |
|---|---|---|
| ShadowHost.NeverOutOfSpace | cpp/src/shadow_ftl.cpp:48-138 | For every geometry, active limit from 1 to blocks - 1 and list of host writes and trims: if the host never holds (blocks - streams) * pages-per-block live pages at a write, no operation fails, the pool stays valid and the mapped keys are exactly the pages the host has written and not trimmed |
| ShadowHost.RunKeeps | cpp/src/shadow_ftl.cpp:55-138 | From any valid pool the same holds of every run, and host programs grow by the number of writes |
| ShadowHost.WriteKeeps | cpp/src/shadow_ftl.cpp:55-60 | A write keeps the invariant, maps its key and no other new one; it fails exactly when it needs a new frontier and no free block is left to take (`Cornered`), which the room condition excludes |
| ShadowHost.AllocateKeeps | cpp/src/shadow_ftl.cpp:76-95 | Taking a frontier keeps the invariant and, with room, never reports exhaustion and leaves a free block behind |
| ShadowHost.ReclaimKeeps | cpp/src/shadow_ftl.cpp:76-81 | The collection loop of `allocate` ends, because every collection lowers the number of stale slots, and keeps the invariant, the mapped keys and the host counter |
| ShadowHost.SecondCollectionFutile | cpp/src/shadow_ftl.cpp:82-83 | The second `collect` in `allocate` can never succeed, so it orphans no frontier: after the loop, with no free block, nothing is collectible |
| ShadowHost.NothingToCollect | cpp/src/shadow_ftl.cpp:108-128 | The counting argument behind the room condition: when nothing is collectible, every full block is wholly live, so if the host's live pages leave room at least two free blocks are left |
| ShadowHost.AppendKeeps | cpp/src/shadow_ftl.cpp:96-107 | An append keeps the invariant and adds exactly one host program |
| ShadowHost.FreshValid | cpp/src/shadow_ftl.cpp:36-53 | A new pool satisfies the invariant |
| ShadowInvariant.CollectKeeps | cpp/src/shadow_ftl.cpp:108-138 | Garbage collection is invisible to the host: the mapped keys are unchanged, a slot is valid iff the map points at it, live counts, per-block streams, frontiers and the program conservation law hold again, the moves never hit the exhaustion error, and the stale slots strictly decrease |
| ShadowInvariant.TrimKeeps | cpp/src/shadow_ftl.cpp:61-68 | A trim unmaps exactly its key and keeps the invariant |
| ShadowInvariant.PlaceKeeps | cpp/src/shadow_ftl.cpp:96-107 | Programming a slot keeps the invariant: slot valid iff mapped, frontier bookkeeping, counters |
| ShadowInvariant.OpenKeeps | cpp/src/shadow_ftl.cpp:85-94 | Opening the least-erased free block as a frontier keeps the invariant and active + free = blocks |
| ShadowInvariant.MoveLiveKeeps | cpp/src/shadow_ftl.cpp:127-129 | Moving the live slots of a victim from any position on succeeds, keeps the mapped keys and leaves every moved slot mapped elsewhere |
| ShadowInvariant.EraseKeeps | cpp/src/shadow_ftl.cpp:130-136 | Erasing a block without live slots keeps the invariant; host + GC programs = erases * pages-per-block + slots held in active blocks |
| ShadowInvariant.StaleNonnegative | cpp/src/shadow_ftl.cpp:108-138 | The termination measure of collection, the stale slots, is never negative in a valid pool |
| ShadowPool.VictimAmong | cpp/src/shadow_ftl.cpp:108-119 | The victim is collectible and no collectible block has fewer live pages, an older last write, fewer erases or a smaller number, in this order |
| ShadowPool.LeastFree | cpp/src/shadow_ftl.cpp:76-86 | The heap yields the free block with the fewest erases, lowest number first |
| ShadowGeometry.GuardAloneIsNotEnough | cpp/src/shadow_ftl.cpp:42-48 | The physical-geometry guard does not suffice: three blocks of two pages and one stream pass it, the host stays within the nominal capacity, and a write is still refused for lack of space |
| ShadowGeometry.NominalEnough | cpp/src/shadow_ftl.cpp:42-53 | A nominal capacity of at most (blocks - streams) * pages-per-block is enough: no run that keeps to it ever fails, an erased block is always left and the mapped keys are the host's pages |
| ShadowDevice.Device.constructor | cpp/src/shadow_ftl.cpp:36-53 | The in-place pool starts as the fresh pool |
| ShadowDevice.Device.WritePage | cpp/src/shadow_ftl.cpp:55-60 | The in-place write is the specified write, failure included; the page is then in a block last programmed at the time of the write, and no block that was not touched changes its time |
| ShadowDevice.Device.AppendPage | cpp/src/shadow_ftl.cpp:96-107 | The in-place append, which takes a frontier if the stream has none, is the specified one, failure included; the page is then in a block last programmed at the time of the append, and no block that was not touched changes its time |
| ShadowDevice.Device.TrimPage | cpp/src/shadow_ftl.cpp:61-68 | The in-place trim is the specified trim |
| ShadowDevice.Device.CollectOnce | cpp/src/shadow_ftl.cpp:108-138 | The in-place collection is the specified one; the pages it moves are then in blocks last programmed at its time, and no block that it did not touch changes its time |
| ShadowDevice.Device.AllocateFrontier | cpp/src/shadow_ftl.cpp:76-95 | The in-place allocation, with its collection loop, is the specified one |
| ShadowDevice.Device.PickVictim | cpp/src/shadow_ftl.cpp:109-119 | The scan over blocks finds the specified victim |
| ShadowDevice.Device.MovePages | cpp/src/shadow_ftl.cpp:127-129 | The loop over the victim's slots moves exactly the live ones, in order |
| ShadowTimes.AppendSince | cpp/src/shadow_ftl.cpp:96-107 | After an append at some time, whatever was collected for it, the block that the map names for the page was last written at that time, and so was the block of every page that has moved; a block neither programmed nor opened nor erased keeps its time |
| ShadowTimes.CollectSince | cpp/src/shadow_ftl.cpp:108-138 | Every page that a collection moves is then in a block of the collection's time, and only blocks that it programs, opens or erases change their times |
| ShadowTimes.RunTimes | cpp/src/shadow_ftl.cpp:55-138 | After any run in order of time the time of a block in use is that of the last program into it, told from which slots came into being and which blocks were erased, and no program into it was later |
| ShadowTimes.VictimOldest | cpp/src/shadow_ftl.cpp:108-119 | From construction, after any run in order of time: the victim has the fewest live pages of all collectible blocks, and none with as few was last programmed earlier |
| ShadowConsume.Consume | cpp/src/shadow_ftl.cpp:174-183 | Following a line of the trace, a write maps exactly the pages of its block unless the pool runs out of space, a trim unmaps exactly them and a read changes nothing |
| ShadowConsume.PagesDisjoint | cpp/src/shadow_ftl.cpp:174-178 | Blocks at different addresses share no page |
| ShadowTrace.FollowTrace | cpp/src/shadow_ftl.cpp:174-183 | Over any trace that replays, unless the pool runs out of space, the pool of a tier maps in the end exactly the pages of the blocks that a device holds in that tier |
| ShadowTrace.FollowSimulator | cpp/src/simulator.cpp:339-347 | Over any trace of the simulator these are exactly the pages of the blocks that the tree has stored in that tier |
| ShadowTrace.TrimMirrors | cpp/src/shadow_ftl.cpp:174-183 | A trim takes away exactly the pages of its block, because a page belongs to one block at most |
| GhostTable.Ghosts.ExpireGhosts | cpp/src/shadow_ftl.cpp:184-191 | After expiry the table holds exactly the hashes whose last loss is at most a day old, whatever happened before |
| GhostTable.Ghosts.RecordLoss | cpp/src/shadow_ftl.cpp:192-199 | With online tuning a loss replaces the earlier one of the same hash and the table is current; without it nothing is recorded; the table and its order of expiry agree |
| GhostTable.Ghosts.GhostPrefix | cpp/src/shadow_ftl.cpp:200-209 | The ghost prefix is the longest prefix of the request that ends in a hash lost at most a day ago |
| Forest.SegmentsPartition | cpp/src/radix_tree.cpp:119-142 | Segments partition the nodes: `n` is in the segment of an endpoint iff the walk down from `n` stops at that endpoint |
| Forest.SegmentDistinct | cpp/src/radix_tree.cpp:130-142 | A segment lists no node twice |
| Forest.SegmentShares | cpp/src/radix_tree.cpp:119-142 | All nodes of a resolved segment have the same endpoint and lie above it |
| Forest.LeafGrows | cpp/src/radix_tree.cpp:198-205 | How a new leaf changes the endpoint of every older node: a former endpoint is extended, a chain is cut at the parent, everything else stays; read backwards, what pruning a leaf does |
| Forest.AddGrows | cpp/src/radix_tree.cpp:27-63 | Creating a node below a node of the tree keeps the forest well-founded and adds a childless node |
| Forest.RemoveGrows | cpp/src/radix_tree.cpp:216-240 | Removing a childless node keeps the forest well-founded |
| Forest.ChildrenGrow | cpp/src/radix_tree.cpp:27-63 | Creation changes the children and child count of the parent only |
| Forest.Leaf | cpp/src/radix_tree.cpp:198-205 | The walk down ends at a node of the tree that has not exactly one child |
| Forest.Segment | cpp/src/radix_tree.cpp:130-142 | The walk up yields a nonempty list of nodes of the tree that ends in the endpoint |
| SlotTree.CreateLinked | cpp/src/radix_tree.cpp:27-63 | Creating a node in a recycled or new slot keeps all sibling lists, counts, the hash index and the free list consistent, and the slots then represent the forest with that leaf added |
| SlotTree.DetachLinked | cpp/src/radix_tree.cpp:216-240 | Unlinking a leaf keeps the sibling lists doubly linked and counted; the slots represent the forest without it |
| SlotTree.ReleaseLinked | cpp/src/radix_tree.cpp:242-248 | Releasing a detached slot frees it for reuse without touching the forest; every slot stays accounted for, and no two detached nodes share a slot |
| SlotTree.ChildrenListed | cpp/src/radix_tree.cpp:111-113 | The sibling list of a node names exactly its children in the forest, and the stored count is their number |
| SlotTree.NodeHangs | cpp/src/radix_tree.cpp:103-109 | Every indexed node is on its parent's list, linked to its neighbours, and its parent slot names its parent in the forest |
| SlotTree.SearchNext | cpp/src/radix_tree.cpp:154-174 | Expanding a slot of a depth-first search meets no slot twice: a slot has been met iff its parent has been expanded |
| SlotTree.SearchComplete | cpp/src/radix_tree.cpp:154-174 | A finished depth-first search has expanded every node below its root |
| RadixTree.Radix.constructor | cpp/src/radix_tree.cpp:8-10 | A new tree has only the root slot and represents the empty forest |
| RadixTree.Radix.GetOrCreateAt | cpp/src/radix_tree.cpp:27-63 | An existing hash is returned as it is, whatever parent is given; otherwise the forest gains a leaf below the given parent |
| RadixTree.Radix.DetachLeaf | cpp/src/radix_tree.cpp:216-240 | The in-place unlinking removes the leaf from the forest and returns its parent |
| RadixTree.Radix.ReleaseDetached | cpp/src/radix_tree.cpp:242-248 | The slot is blanked and freed; the forest is unchanged |
| RadixTree.Radix.ResolveSegment | cpp/src/radix_tree.cpp:130-142 | The walk over parent slots returns the segment of the forest |
| RadixTree.Radix.SegmentTopOf | cpp/src/radix_tree.cpp:119-128 | The walk up stops at the first node of the segment |
| RadixTree.Radix.SegmentLeafFor | cpp/src/radix_tree.cpp:198-205 | Following first children while there is one child ends at the segment's endpoint |
| RadixTree.Radix.HasDescendant | cpp/src/radix_tree.cpp:154-196 | The depth-first search answers yes iff a marked node lies strictly below the node |
| RadixTree.Radix.ChildCountOf | cpp/src/radix_tree.cpp:111-113 | The stored counter is the number of children in the forest |
| MemoryReplay.Victims | cpp/src/policies/memory/indexed_memory_lru_policy.cpp:89-259 | For every history of creations, prunes, inserts, accesses and removals, any number of groups and workers and any grouping, the index and the recency-list scan choose the same victim: the least recently used segment with no resident strictly below it |
| MemoryReplay.Choose | cpp/src/policies/memory/baseline_memory_lru_policy.cpp:20-42 | The scan and the index agree in every state that describes the same residents |
| MemoryReplay.Notify | cpp/src/policies/memory/indexed_memory_lru_policy.cpp:107-188 | Both policies follow the tree and the residency through every event |
| MemoryHistory.NextOk | cpp/src/simulator.cpp:519-534 | Every allowed event keeps residents inside a well-founded tree with distinct recencies |
| MemoryVictim.LeastIsVictim | cpp/src/policies/memory/indexed_memory_lru_policy.cpp:240-259 | The least published key without residents below is the least recently used victim, and exists iff something is resident |
| MemoryVictim.PublishedIsNewest | cpp/src/policies/memory/indexed_memory_lru_policy.cpp:70-78 | A published key carries the newest recency among the residents of its segment |
| MemoryVictim.NewestIsPublished | cpp/src/policies/memory/indexed_memory_lru_policy.cpp:70-78 | Every segment with residents is published under its newest recency |
| MemoryVictim.CandidateExists | cpp/src/policies/memory/indexed_memory_lru_policy.cpp:240-259 | Whenever something is resident there is a segment without residents below it |
| MemoryVictim.VictimUnique | cpp/src/policies/memory/baseline_memory_lru_policy.cpp:20-42 | The least recently used victim is unique |
| MemoryVictim.ShareStep | cpp/src/policies/memory/indexed_memory_lru_policy.cpp:190-207 | The strided walk of a worker covers exactly the selected groups congruent to its number |
| MemoryVictim.WindowsCover | cpp/src/policies/memory/indexed_memory_lru_policy.cpp:240-259 | The sampled window and the fallback window together cover every group |
| MemoryVictim.LeastOfUnion | cpp/src/policies/memory/indexed_memory_lru_policy.cpp:231-238 | The lesser of two partial minima is the minimum over both sets of groups |
| MemoryIndex.UnpublishHolds | cpp/src/policies/memory/indexed_memory_lru_policy.cpp:63-68 | Withdrawing a segment leaves exactly the other segments published |
| MemoryIndex.PublishHolds | cpp/src/policies/memory/indexed_memory_lru_policy.cpp:70-78 | Publishing restores it under its newest recency, and drops a segment without members |
| MemoryEdits.CutPlaces | cpp/src/policies/memory/indexed_memory_lru_policy.cpp:112-133 | After a split exactly the prefix's residents have moved to the new segment, each to the endpoint of its own segment |
| MemoryEdits.AbsorbPlaces | cpp/src/policies/memory/indexed_memory_lru_policy.cpp:89-105 | After a merge every resident of the prefix is filed under the suffix's endpoint |
| MemoryEdits.SameResidents | cpp/src/policies/memory/indexed_memory_lru_policy.cpp:136-147 | Creations and prunes that change no resident's segment leave the index describing the new tree |
| MemoryPolicy.Indexed.constructor | cpp/src/policies/memory/indexed_memory_lru_policy.cpp:11-18 | A new policy indexes the empty tree |
| MemoryPolicy.Indexed.NodeCreated | cpp/src/policies/memory/indexed_memory_lru_policy.cpp:107-134 | A creation callback turns an index of the old tree into an index of the new one, through extension or split |
| MemoryPolicy.Indexed.NodePruned | cpp/src/policies/memory/indexed_memory_lru_policy.cpp:136-147 | A prune callback turns an index of the old tree into an index of the new one, through retraction or merge |
| MemoryPolicy.Indexed.CutSegment | cpp/src/policies/memory/indexed_memory_lru_policy.cpp:112-133 | The loop over the prefix moves exactly its residents and publishes both halves |
| MemoryPolicy.Indexed.Merge | cpp/src/policies/memory/indexed_memory_lru_policy.cpp:89-105 | Merging joins the prefix's members to the suffix's segment, in all three cases of missing entries |
| MemoryPolicy.Indexed.MoveEndpoint | cpp/src/policies/memory/indexed_memory_lru_policy.cpp:80-87 | Moving an endpoint republishes its segment under the new endpoint |
| MemoryPolicy.Indexed.Insert | cpp/src/policies/memory/indexed_memory_lru_policy.cpp:165-172 | An insert keeps the index, with the node newest of all |
| MemoryPolicy.Indexed.Access | cpp/src/policies/memory/indexed_memory_lru_policy.cpp:180-182 | An access keeps the index, with the node newest of all |
| MemoryPolicy.Indexed.Remove | cpp/src/policies/memory/indexed_memory_lru_policy.cpp:183-186 | A removal keeps the index, subtree counts included |
| MemoryPolicy.Indexed.SearchGroup | cpp/src/policies/memory/indexed_memory_lru_policy.cpp:190-207 | The walk over one ordered group stops at its least key without residents below |
| MemoryPolicy.Indexed.Search | cpp/src/policies/memory/indexed_memory_lru_policy.cpp:190-207 | A worker finds the least such key over its share of the groups |
| MemoryPolicy.Indexed.SearchGroups | cpp/src/policies/memory/indexed_memory_lru_policy.cpp:224-238 | The workers' parts combine to the global minimum, for any number of workers |
| MemoryPolicy.Indexed.SelectVictim | cpp/src/policies/memory/indexed_memory_lru_policy.cpp:240-259 | A victim is always found when anything is resident, sampled or not; unsampled it is the least recently used one |
| SubtreeCounts.CountDecidesBare | cpp/src/policies/memory/indexed_memory_lru_policy.cpp:198-203 | Comparing the subtree count with the endpoint's own residency decides whether a resident lies strictly below |
| SubtreeCounts.CountPath | cpp/src/policies/memory/indexed_memory_lru_policy.cpp:149-161 | The walk up the ancestors raises or lowers the count of exactly the node's path |
| SubtreeCounts.InsertCounted | cpp/src/policies/memory/indexed_memory_lru_policy.cpp:149-161 | Raised along the path of a new resident, the counts equal the residents of every subtree again |
| SubtreeCounts.RemoveCounted | cpp/src/policies/memory/indexed_memory_lru_policy.cpp:149-161 | Lowered along the path of a lost resident, the counts equal the residents of every subtree again |
| SubtreeCounts.GrowCounted | cpp/src/policies/memory/indexed_memory_lru_policy.cpp:107-147 | Creating or pruning a non-resident leaf leaves all counts right |
| BaselinePolicy.Baseline.Evict | cpp/src/policies/memory/baseline_memory_lru_policy.cpp:20-42 | The scan over the recency list finds the least recently used victim |
| BaselinePolicy.Baseline.AttachFront | cpp/src/policies/memory/baseline_memory_lru_policy.cpp:59-69 | The links spell the list with the node in front |
| BaselinePolicy.Baseline.Detach | cpp/src/policies/memory/baseline_memory_lru_policy.cpp:71-85 | The links spell the list without the node |
| BaselinePolicy.Baseline.Touch | cpp/src/policies/memory/baseline_memory_lru_policy.cpp:49-52 | An access moves the node to the front |
| BaselinePolicy.ScanStep | cpp/src/policies/memory/baseline_memory_lru_policy.cpp:27-38 | First meeting a segment meets it at its newest resident, so the last bare segment met is the oldest |
| WorkerBarrier.RoundComplete | cpp/src/policies/memory/indexed_memory_lru_policy.cpp:224-238 | When a round returns, every worker has searched exactly once in its epoch and the results are this epoch's parts |
| WorkerBarrier.NoDeadlock | cpp/src/policies/memory/indexed_memory_lru_policy.cpp:209-238 | In every reachable state before the threads are joined some thread can take a step: no wake-up is lost |
| WorkerBarrier.RoundProgresses | cpp/src/policies/memory/indexed_memory_lru_policy.cpp:209-238 | Every step of a round lowers what is left of it, so a round ends |
| WorkerBarrier.StepInv | cpp/src/policies/memory/indexed_memory_lru_policy.cpp:209-238 | Every interleaving keeps pending equal to the outstanding workers and each worker's run count equal to the epochs it has served |
| ContextPolicy.SelectVictim | cpp/src/policies/memory/context_memory_lru_policy.cpp:117-143 | The victim ends closest to the root, then is smallest, then least recent, among the shortest list of least recently used bare segments that covers the block budget |
| MemoryDecision.RecencyOrdersTimes | cpp/src/policies/memory/indexed_memory_lru_policy.cpp:268-271 | On a timeline that never moves backwards the order of memory recency is the order of last accesses, after any history |
| MemoryDecision.NewestDecides | cpp/src/policies/memory/indexed_memory_lru_policy.cpp:263-276 | The newest resident of a segment is past a limit iff all its residents are |
| MemoryDecision.VictimDecides | cpp/src/simulator.cpp:536-551 | A segment with a block in memory is one the simulator can evict from |
| MemoryDecision.UnlimitedTakesAll | cpp/src/simulator.cpp:557-566 | Without a limit the first round of an eviction leaves no block of the segment in memory |
| MemoryDecision.Evict | cpp/src/policies/memory/indexed_memory_lru_policy.cpp:261-279 | The victim is bare and can be evicted, and every memory block of its segment is; it is dropped exactly if each of them was last accessed more than the retention time ago, although only the newest is looked at |
| MemoryDecision.Decide | cpp/src/policies/memory/indexed_memory_lru_policy.cpp:240-279 | The same after any timed history, for any number of groups and workers, with the victim the least recently used one: all its blocks in memory are evicted |
| ContextHistory.Replay | cpp/src/policies/memory/context_memory_lru_policy.cpp:72-115 | After any legal run of requests the record says exactly what the run says: of each block, which requests used it since its node was created, the gap between the last two, and the growth it was given; of each session, the size and growth of its finished requests. Every block in memory has a record |
| ContextHistory.Record.RequestBegins | cpp/src/policies/memory/context_memory_lru_policy.cpp:72-81 | A beginning request takes over the growth of its session |
| ContextHistory.Record.Used | cpp/src/policies/memory/context_memory_lru_policy.cpp:96-108 | The first use by a request updates the gap and growth of the block, later ones nothing |
| ContextHistory.Record.RequestEnds | cpp/src/policies/memory/context_memory_lru_policy.cpp:83-94 | An ending request publishes the growth of its session to those of its blocks that are in memory, all of which have a record |
| ContextHistory.Record.Pruned | cpp/src/policies/memory/context_memory_lru_policy.cpp:110-115 | A pruned node takes its record with it |
| ContextHistory.UsersInOrder | cpp/src/policies/memory/context_memory_lru_policy.cpp:96-108 | The requests that used a block are in order of time, each once, so a gap is never negative |
| ContextHistory.ResidentUsed | cpp/src/policies/memory/context_memory_lru_policy.cpp:83-108 | A block in memory has been used since its node was created, so looking up its record never fails |
| ContextHistory.PriorGrowth | cpp/src/policies/memory/context_memory_lru_policy.cpp:91-93 | While a request runs the blocks it has used carry the growth known before it |
| ContextHistory.BlocksScale | cpp/src/policies/memory/context_memory_lru_policy.cpp:61-67 | The size of an eviction is, in whole numbers, the base scaled by the gap over its reference, rounded down, from 1 to the maximum |
| ContextHistory.BlocksWithoutGap | cpp/src/policies/memory/context_memory_lru_policy.cpp:61-67 | Without a gap the size is the base, from 1 to the maximum, as after a gap of exactly the reference |
| ContextHistory.LongerGapsEvictMore | cpp/src/policies/memory/context_memory_lru_policy.cpp:61-67 | Longer gaps evict no fewer blocks |
| ContextHistory.GrowthKeepsLonger | cpp/src/policies/memory/context_memory_lru_policy.cpp:53-60 | Every block of growth adds the same time to the retention, none without growth; a segment dropped after some growth would have been dropped after less |
| ContextHistory.Evict | cpp/src/policies/memory/context_memory_lru_policy.cpp:45-70 | The context policy's decision can be carried out; the segment is dropped exactly if all its blocks are older than the newest one's session allows, and its size follows from that block's last gap |
| ContextPolicy.SmallBudget | cpp/src/policies/memory/context_memory_lru_policy.cpp:117-143 | With a budget that one block covers it is the least recently used victim |
| StorageReplay.Victims | cpp/src/policies/storage/wear_share_round_robin_storage_policy.cpp:66-103 | For every history of creations, prunes, dumps, trims and accesses the four searches return the same endpoint and time for every tier and protected set |
| StorageVictim.LruLeafUnique | cpp/src/policies/storage/storage_policy_state.cpp:61-87 | The least recently used unprotected storage leaf is unique |
| StorageVictim.OrderedMeaning | cpp/src/policies/storage/wear_share_round_robin_storage_policy.cpp:183-202 | The ordered candidates of a tier are exactly the segments with blocks there, at their latest access |
| StorageIndex.StoredGrows | cpp/src/policies/storage/wear_share_round_robin_storage_policy.cpp:204-244 | How one more leaf redistributes the stored blocks of every segment |
| StoragePolicy.RoundRobin.constructor | cpp/src/policies/storage/wear_share_round_robin_storage_policy.cpp:30-37 | A new policy indexes the empty tree |
| StoragePolicy.RoundRobin.RefreshSegment | cpp/src/policies/storage/wear_share_round_robin_storage_policy.cpp:183-202 | Refreshing makes one endpoint's entry right and leaves the others alone |
| StoragePolicy.RoundRobin.EraseSegment | cpp/src/policies/storage/wear_share_round_robin_storage_policy.cpp:172-181 | Erasing removes an entry and its ordered candidates |
| StoragePolicy.RoundRobin.NodeCreated | cpp/src/policies/storage/wear_share_round_robin_storage_policy.cpp:204-224 | A creation callback turns an index of the old tree into an index of the new one, early returns included |
| StoragePolicy.RoundRobin.NodePruned | cpp/src/policies/storage/wear_share_round_robin_storage_policy.cpp:226-244 | A prune callback turns an index of the old tree into an index of the new one |
| StoragePolicy.RoundRobin.Dumped | cpp/src/policies/storage/wear_share_round_robin_storage_policy.cpp:121-145 | A dump keeps the index, although its endpoint may have merged since |
| StoragePolicy.RoundRobin.Trimmed | cpp/src/policies/storage/wear_share_round_robin_storage_policy.cpp:121-145 | A trim keeps the index and the subtree counts |
| StoragePolicy.RoundRobin.Commit | cpp/src/policies/storage/wear_share_round_robin_storage_policy.cpp:141-144 | A commit confined to one segment needs only that segment refreshed |
| StoragePolicy.RoundRobin.Victim | cpp/src/policies/storage/wear_share_round_robin_storage_policy.cpp:262-279 | The walk over the ordered candidates, with or without subtree counts, stops at the specified storage leaf |
| StorageScan.PolicyState.LruLeafScan | cpp/src/policies/storage/storage_policy_state.cpp:61-87 | The scan with a set of visited endpoints finds the specified storage leaf |
| StorageScan.PolicyState.LruLeafFused | cpp/src/policies/storage/storage_policy_state.cpp:89-120 | The fused scan that marks whole segments finds the same |
| StorageScan.PolicyState.SegmentLast | cpp/src/policies/storage/storage_policy_state.cpp:157-167 | The number of blocks that a segment has in a tier and their latest access |
| StorageScan.PolicyState.Dumped | cpp/src/policies/storage/storage_policy_state.cpp:15-25 | After a dump exactly its blocks have new entries, timed now; the others are unchanged |
| StorageScan.PolicyState.Erased | cpp/src/policies/storage/storage_policy_state.cpp:27-32 | After a trim or prune exactly its blocks have lost their entries |
| StorageScan.PolicyState.Touched | cpp/src/policies/storage/storage_policy_state.cpp:41-48 | An access moves the time of exactly its blocks, and adds no entry |
| Allocator.TakeOccupies | cpp/src/storage.cpp:19-30 | An allocated address is in use by nobody and below the peak use; live and recycled addresses split the range below the next fresh one |
| Allocator.ReturnOccupies | cpp/src/storage.cpp:37-40 | A released address becomes available; the invariant holds again |
| Allocator.TakeReturn | cpp/src/storage.cpp:19-40 | Taking an address and returning it leaves the same addresses live; only the peak remembers |
| Allocator.TierState.Allocate | cpp/src/storage.cpp:19-30 | The in-place allocation hands out an unused address |
| Allocator.TierState.Release | cpp/src/storage.cpp:37-40 | The in-place release returns it |
| Pruning.RemoveShares | cpp/src/simulator.cpp:1047-1082 | Pruning a leaf merges and shortens segments but separates no two nodes |
| Pruning.SegmentFenced | cpp/src/simulator.cpp:1039-1045 | Pruning upward inside a segment never climbs out of it: its parent keeps another child |
| Pruning.SegmentKept | cpp/src/simulator.cpp:853-860 | A segment whose nodes survive reclaiming is part of the segment that ends at its endpoint afterwards |
| Pruning.RemoveBare | cpp/src/simulator.cpp:1047-1082 | Removing a bare leaf leaves at most its parent as a new bare leaf |
| SimulatorState.TrimLogged | cpp/src/simulator.cpp:798-814 | A trim line keeps the device that replays the trace equal to the storage copies, and the allocators in step |
| SimulatorState.DumpLogged | cpp/src/simulator.cpp:676-694 | A dump's write goes to a free address and keeps them equal |
| SimulatorState.TrimBase | cpp/src/simulator.cpp:798-814 | A trim keeps the invariant with the trimmed node as the only new suspect of being a leaf without copies |
| SimulatorState.PruneBase | cpp/src/simulator.cpp:1047-1082 | Pruning a bare leaf moves the suspicion to its parent |
| SimulatorState.Created | cpp/src/simulator.cpp:149-165 | A created node is the only leaf that may lack a copy until its first access |
| SimulatorMoves.WriteStep | cpp/src/simulator.cpp:953-974 | A relocation's write goes to its reserved, free address while the source stays readable |
| SimulatorMoves.DropStep | cpp/src/simulator.cpp:987-1006 | A relocation's trim frees a source slot that no copy uses any more |
| SimulatorMoves.AssembleRelocation | cpp/src/simulator.cpp:892-1006 | The events of the three loops make up one complete relocation, and no other event carries its number |
| SimulatorMoves.FinishMoving | cpp/src/simulator.cpp:892-1016 | With its last source trimmed the relocation restores the invariant and is recorded |
| SimulatorReclaim.RelocationOutcome | cpp/src/simulator.cpp:867-1003 | Making room in TLC and moving k SLC blocks there lowers SLC use by k and twice SLC plus TLC use by at least k, and leaves protected nodes alone |
| SimulatorReclaim.DumpSegmentDefined | cpp/src/simulator.cpp:663-712 | A dump's endpoint is still in the tree after the reclaim it triggers, and all its nodes lie in the segment of one defined endpoint |
| SimulatorReclaim.MigrationReady | cpp/src/simulator.cpp:449-489 | After room was made for a migration, the accessed block is at its old location and in the segment that will be moved, so the move cannot come to nothing |
| SimulatorReclaim.OverrunExactly | cpp/src/simulator.cpp:853-860 | Between two trees, the later a pruned one that still has the segment: the segment found at the endpoint has at least the SLC blocks of the earlier one, and more iff a node that joined it holds an SLC copy |
| Joining.JoinedExactly | cpp/src/radix_tree.cpp:130-142 | An ancestor is in the segment that ends at a node iff nothing hangs aside of the way between them |
| SimulatorRoom.JoinNeeds | cpp/src/simulator.cpp:714-761 | While room is made in TLC, under any policy, an ancestor with an SLC copy can join a protected segment only if everything aside of its way is unprotected, inactive and holds at most TLC copies |
| SimulatorRoom.DrivenJoins | cpp/src/simulator.cpp:714-761 | Under a policy that trims what hangs aside, with a limit that is reached when it is gone, room is made, nothing more is trimmed and the ancestor joins |
| SimulatorRoom.UsedCount | cpp/src/storage.cpp:19-40 | The use counted by a tier's allocator is the number of copies in the tier |
| SimulatorMigration.MigrationMoves | cpp/src/simulator.cpp:443-489 | A migration moves exactly the SLC blocks that the segment has once room has been made: at least those it was sized for |
| SimulatorMigration.MigrationFits | cpp/src/simulator.cpp:457-489 | If the blocks fit the limit answered, the migration happens, nothing is reclaimed, the tree is unchanged and exactly the blocks it was sized for are moved |
| SimulatorMigration.MigrationOverrunNeeds | cpp/src/simulator.cpp:457-489 | Under any policy, more blocks are moved than the migration was sized for only if in the state before it the blocks did not fit the limit though they did not exceed it, and an ancestor outside the segment held an SLC copy with nothing aside of its way but unprotected TLC copies |
| SimulatorMigration.SomePolicyOverruns | cpp/src/simulator.cpp:457-489 | Where such an ancestor exists and trimming what hangs aside makes the room within the capacity, some policy makes every migration of that block move more than it was sized for |
| SimulatorMigration.MigrationDriven | cpp/src/simulator.cpp:457-489 | Under a policy that trims what hangs aside and a limit that is reached when it is gone, the migration happens, moves more than it was sized for and passes the limit |
| SimulatorMigration.MigrationExceeds | cpp/src/simulator.cpp:457-489 | TLC exceeds its capacity in a migration iff it had before, or its use once room is made and the blocks moved are more than the capacity; a migration that first exceeds it has moved more than it was sized for |
| SimulatorOverrun.Overrun | cpp/src/simulator.cpp:403-517 | From the constructor, with memory for one block, two blocks of SLC and one of TLC, five requests under fixed policy answers end with TLC above its capacity |
| SimulatorOverrun.HitOverruns | cpp/src/simulator.cpp:443-489 | In the state those requests lead to, every migration that the last hit can start passes the capacity of TLC |
| SimulatorEviction.Deepest | cpp/src/simulator.cpp:557-567 | At most the given number of blocks are chosen, all resident, at least one if there is one, and all if they fit |
| Simulator.Sim.constructor | cpp/src/simulator.cpp:78-93 | The initial state satisfies the invariant and is empty, whatever the policies, and no tier has exceeded its capacity |
| SimulatorEviction.DeepestIsSuffix | cpp/src/simulator.cpp:557-567 | The evicted blocks are all the memory blocks of a suffix of the segment: none stays below an evicted one |
| Simulator.Sim.PruneFrom | cpp/src/simulator.cpp:1047-1082 | Upward pruning removes only nodes without copies and children, never the active one, and leaves no bare leaf behind |
| Simulator.Sim.PruneSegment | cpp/src/simulator.cpp:1039-1045 | Afterwards no node of the list is a bare leaf, and nothing outside its segment was pruned |
| Simulator.Sim.ExecuteTrim | cpp/src/simulator.cpp:783-842 | A trim succeeds iff the segment has blocks in the tier; it logs exactly one trim of each where it was, for the reason given, frees exactly their number and touches no node outside the segment |
| Simulator.Sim.TrimBlocks | cpp/src/simulator.cpp:798-814 | The loop trims exactly its blocks, in order, and logs them for the reason given |
| Simulator.Sim.ReserveAll | cpp/src/simulator.cpp:905-913 | Destinations are distinct, free and together raise the use by their number; all are in the stream asked for |
| Simulator.Sim.ReadAll | cpp/src/simulator.cpp:915-939 | Every block has one read; the accessed block's is the reused storage hit |
| Simulator.Sim.WriteAll | cpp/src/simulator.cpp:953-974 | Every block is written to its destination and depends on its read; all sources stay held |
| Simulator.Sim.DropAll | cpp/src/simulator.cpp:987-1004 | Every source is trimmed after, and depending on, its write |
| Simulator.Sim.MoveBlocks | cpp/src/simulator.cpp:892-1004 | A relocation moves exactly its blocks from SLC to TLC, to the stream asked for, keeps the trace faithful throughout and is recorded in full, with its blocks and its reason, which its events carry |
| Simulator.Sim.ExecuteRelocation | cpp/src/simulator.cpp:844-1037 | A relocation keeps the invariant and moves nothing protected; room is made by the policy's answers under the limit answered, and the blocks are moved, to the stream and for the reason asked for, iff that goes well, at once if they fit; whenever it succeeds TLC is within that limit and SLC has lost at least the blocks; no tier grows beyond a limit answered meanwhile |
| Simulator.Sim.ReclaimOnce | cpp/src/simulator.cpp:763-781 | A step does nothing without a proposal and carries out a proposed trim, or a proposed relocation to its stream if room can be made for it; if successful it strictly lowers the use of its tier; it touches nothing protected, reclaiming for TLC leaves SLC alone, and neither the use nor the peak of a tier grows beyond a limit answered meanwhile |
| Simulator.Sim.EnsureCapacity | cpp/src/simulator.cpp:714-761 | If it succeeds the required blocks fit the limit answered; if they fit at once, or never can, nothing changes; otherwise the policy's answers are carried out one after another, each while the blocks do not fit yet, and it fails only if the last answer was none or its relocation was not done; protected nodes and their copies are untouched, no two nodes of a segment are separated and the limits are kept |
| SimulatorTurns.ProgressOn | cpp/src/simulator.cpp:726-760 | An answer carried out while the blocks do not fit is the next step towards room; one that is not done ends the attempt |
| Simulator.Sim.DrainBackgroundTick | cpp/src/simulator.cpp:385-401 | A tick is a sequence of turns, each with the answer to the next question carried out, up to the first turn without an action or with one that is not done; it ends, because every action lowers twice SLC plus TLC use, keeps the invariant, and raises no tier beyond a limit answered to its actions and SLC not at all |
| SimulatorTurns.TurnsOn | cpp/src/simulator.cpp:388-400 | After a turn with an action the tick goes on, and a turn without one ends it |
| Simulator.Sim.BackgroundTurn | cpp/src/simulator.cpp:388-400 | One turn carries out the action the policy asks for: a trim iff the segment has blocks in the tier, logged as idle, a migration to its stream iff room can be made, after which TLC is within the limit; without an action nothing happens |
| SimulatorRoom.LimitedBound | cpp/src/simulator.cpp:714-761 | What keeps to the policies' limits never takes a tier beyond its capacity |
| Simulator.Sim.DumpSegment | cpp/src/simulator.cpp:625-712 | A dump asks for room with its segment and the prefix out of bounds; if the policy's answers make it, exactly the unwritten blocks are written and logged, to the given tier and stream, within the limit answered, and otherwise nothing is; no other copy is made; its segment survives and its other copies stay, as do protected ones |
| Simulator.Sim.EvictRound | cpp/src/simulator.cpp:585-622 | A round removes exactly the chosen blocks from memory; dropped or already written ones cause no write; the unwritten ones are dumped where the policy says, at once if they fit and otherwise iff its answers make the room, and no other is stored; it is the last iff blocks are dropped or one of them is unwritten; if the walk goes on, everything outside the segment is still in the tree |
| Simulator.Sim.EvictFromMemory | cpp/src/simulator.cpp:536-623 | Exactly the blocks of the walk leave memory: the deepest of the chosen segment and, as long as all have been written and the policy wants parents, of each segment above, told from the tree before; the unwritten ones, all in the last round, are dumped unless dropped, which the policy's answers decide; protected storage copies stay where they were; the walk ends |
| SimulatorRounds.WalkUp | cpp/src/simulator.cpp:545-623 | After a round that wrote nothing, whatever it pruned, the rest of the walk is the one that the tree before the eviction names: the segment above is as it was |
| SimulatorRounds.WalkEnd | cpp/src/simulator.cpp:585-622 | A round that drops its blocks or has something to write completes exactly the walk |
| SimulatorEviction.RoundUnaffected | cpp/src/simulator.cpp:619-622 | Pruning within a segment leaves the segment above it, and the walk to it, unaffected |
| Simulator.Sim.InsertIntoMemory | cpp/src/simulator.cpp:524-534 | The node enters memory; nothing is evicted unless memory was full, and then exactly the policy's decision, or another one if that cannot be carried out, is; protected storage copies stay where they were; memory stays within its capacity, and the policy is told last of the insertion |
| Simulator.Sim.MigrateOnAccess | cpp/src/simulator.cpp:443-489 | An access migration keeps the invariant, memory and the block's copy, which is where it was or in TLC; the states on the way to the room are those that the policy's proposals lead to, and then exactly the SLC blocks of the segment found are moved, to the stream that the policy named; without room the limits are kept |
| Simulator.Sim.ServeFromStorage | cpp/src/simulator.cpp:416-501 | A storage hit is logged as a read at the location the block had at that line of the trace, plain or as the first read of its migration; without a migration nothing but the trace changes; memory is untouched |
| Simulator.Sim.ProcessAccess | cpp/src/simulator.cpp:403-517 | After an access its node is in the tree with a copy, and so is every leaf; the result says where the block was; a memory hit changes nothing, a storage hit is served and enters memory iff the policy admits it, a miss enters memory; the memory policy is told of the access or the insertion |
| SimulatorAccess.AccessLimited | cpp/src/simulator.cpp:403-517 | An access without a migration raises no tier beyond a limit answered meanwhile |
| SimulatorAccess.ExceedsOnlyByMigration | cpp/src/simulator.cpp:403-517 | TLC comes to exceed its capacity only in an access whose block is hit in SLC, for which the policy asks for a migration, whose blocks do not fit the limit as they are, and into whose segment an ancestor can join |
| SimulatorAccess.AnsweredLimited | cpp/src/simulator.cpp:107-187 | Under policies that ask for no access migration a request raises no tier beyond a limit answered meanwhile |
| Simulator.Sim.GetOrCreate | cpp/src/simulator.cpp:149-158 | The parent is in the tree; an existing hash is used as it is, otherwise a leaf below the parent is the only change |
| Simulator.Sim.ProtectedPrefix | cpp/src/simulator.cpp:313-337 | The protected prefix is the longest prefix of the request that is a path from a root of the tree through nodes with copies |
| Simulator.Sim.ProcessRequest | cpp/src/simulator.cpp:107-187 | Every parent handed to the tree is in it; from each block of the request to the next there is exactly one access, after its node was found or created, with the longest path of nodes with copies protected; hits are counted up to the first miss; the last block is held at the end |
| SimulatorAccess.HitPrefix | cpp/src/simulator.cpp:174-176 | The hits of a request are the results before its first miss |
| Simulator.Sim.Run | cpp/src/simulator.cpp:107-187 | Every request of a run is answered and every tick drained, each from where the step before ended; the invariant holds after any run, for any policies: SLC has never exceeded its capacity, and TLC has not either unless it had before or the policies ask for access migrations |
| Simulator.Sim.TakeStep | cpp/src/simulator.cpp:107-187 | A request step answers exactly its request, a tick step drains exactly one tick |
| SimulatorPolicy.Victims | cpp/src/simulator.cpp:536-541 | In every state the simulator reaches, index and list policy, told what the simulator told, choose the same least recently used segment, one exists iff memory holds a block, and the simulator can evict from it |
| MemoryHistory.TellsNext | cpp/src/simulator.cpp:149-165 | A history followed by an event that its end allows is a history of the tree and memory after the event |
| SimulatorResults.LeavesHoldCopies | cpp/src/simulator.cpp:403-517 | Between accesses every leaf of the tree holds a memory or storage copy |
| SimulatorResults.TraceFaithful | cpp/src/trace_writer.cpp:71-95 | Replaying the trace from an empty device gives exactly the tree's storage locations, no two nodes sharing one |
| SimulatorResults.EveryEventLegal | cpp/src/trace_writer.cpp:71-95 | At every line of the trace a write finds its address free, and a read or trim names the node held there |
| SimulatorResults.AddressesBelowPeak | cpp/src/storage.cpp:19-40 | Every live address is below the peak use of its tier and not recycled |
| Clock.RunUntil | cpp/src/simulator.cpp:349-368 | Runs exactly the specified boundaries, and ends |
| Clock.RunInStages | cpp/src/simulator.cpp:349-368 | Running to one time and then to a later one fires the same boundaries in the same order as running to the later one at once |
| Clock.BoundariesOrdered | cpp/src/simulator.cpp:355-367 | Boundaries fire in order of time, a feedback window before the background tick of the same time, and none after the target |
| Clock.BoundariesComplete | cpp/src/simulator.cpp:349-368 | Exactly the boundaries fire that lie whole periods after the next one of their clock, up to the target and within the time type: none is left out |
| Commands.ConflictsOrdered | src/dwpdsim/mqsim.py:120-152 | Of any two commands on the same tier, stream and range of which one is no read, the later reaches the earlier through predecessors |
| Commands.OverlapsOrdered | src/dwpdsim/mqsim.py:466-521 | When all events are aligned blocks of one size the same holds of any two overlapping commands, because overlapping ranges are equal |
| Commands.UnalignedUnordered | src/dwpdsim/mqsim.py:120-152 | An instance: two overlapping writes of different length are unordered |
| Commands.OrderedExactly | src/dwpdsim/mqsim.py:466-521 | Of any two commands the later reaches the earlier iff a chain leads back to it whose steps are conflicts on one range, successive chunks of one event, and declared dependencies of events |
| Commands.PlainOrderedExactly | src/dwpdsim/mqsim.py:120-152 | For events of one chunk each without declared dependencies, two commands are ordered iff their ranges are equal and, for two reads, the range is changed in between: overlapping commands of different ranges never are |
| Commands.ChunksTile | src/dwpdsim/mqsim.py:475-520 | Every sector of an event lies in exactly one of its chunks and the chunks hold nothing else |
| Commands.ChunkSizes | src/dwpdsim/mqsim.py:475-482 | Chunks have from 1 to 65535 sectors and follow each other without gaps |
| Commands.LoweredTracked | src/dwpdsim/mqsim.py:466-521 | The commands of any list of events that can be lowered wait for all their hazards, and only for earlier commands |
| Commands.CommandsCarry | src/dwpdsim/mqsim.py:490-516 | Every command is numbered by its place and is a chunk of one event, whose operation, node, time, reason and move it carries |
| Commands.CommandsInTime | src/dwpdsim/mqsim.py:490-516 | If events do not go back in time, neither do commands |
| Commands.FlowsNumbered | src/dwpdsim/mqsim.py:334-335 | The flows are exactly the numbers below the total of the streams, and each belongs to one stream of one tier |
| Commands.FlowsSeparate | src/dwpdsim/mqsim.py:334-335 | Where the events' streams exist, commands are in one flow iff they go to the same stream of the same tier, as commands that must be kept in order do |
| Commands.ChunksChained | src/dwpdsim/mqsim.py:490-495 | Every chunk of an event reaches the chunks before it |
| Commands.DependencyCarried | src/dwpdsim/mqsim.py:488-494 | Every command of an event reaches every command of the event it depends on |
| Commands.LastMutation | src/dwpdsim/mqsim.py:126-152 | The last change of a range is a change of it, and no later one exists |
| Commands.ReadersSince | src/dwpdsim/mqsim.py:126-152 | The readers of a range are exactly its reads since the last change |
| Commands.Tracker.Update | src/dwpdsim/mqsim.py:126-152 | The tracker returns exactly the direct hazards and again knows the last change and readers of every range |
| Commands.LowerEvents | src/dwpdsim/mqsim.py:466-521 | The commands are exactly the chunks of the events in order, each with exactly its hazards and links |
| Relocations.ValidateRelocations | src/dwpdsim/mqsim.py:170-242 | The validator accepts a list of events iff its relocations are complete and consistent |
| Relocations.GroupEvents | src/dwpdsim/mqsim.py:170-181 | Events are grouped by move and node in order; it fails iff an event outside a relocation declares a dependency |
| Relocations.CheckBlocks | src/dwpdsim/mqsim.py:183-233 | If every block is right and moves agree on their reason, reasons and storage hits are tallied per move; otherwise a fault exists |
| Relocations.CheckHits | src/dwpdsim/mqsim.py:235-242 | Accepts iff exactly the access migrations reuse one storage hit and no other move does |
| Relocations.Verdict | src/dwpdsim/mqsim.py:170-242 | The gathered tallies decide acceptance |
| Conversion.RecordedAccepted | src/dwpdsim/mqsim.py:170-242 | The validator accepts every trace whose relocations are recorded in full |
| Conversion.RecordedChained | src/dwpdsim/mqsim.py:306-307 | Its events can be lowered: they ascend and their dependencies name earlier events |
| TraceReader.ReadRows | src/dwpdsim/mqsim.py:246-330 | The reader accepts a list of rows iff every row is nonempty, ascends in sequence, does not go back in time, names a stream and sectors of its tier, and depends on an earlier row at most |
| Conversion.ReadExactly | src/dwpdsim/mqsim.py:291-307 | The reader takes a trace of the simulator iff its times are in order, every stream written exists and every address written lies below the capacity of its tier |
| Conversion.FitExactly | cpp/src/storage.cpp:19-30 | Every address written lies below the capacity of its tier iff no tier has ever used more than its capacity |
| Conversion.TraceReadExactly | src/dwpdsim/mqsim.py:291-305 | In every state that the simulator reaches, with times in order and the streams in existence, the trace is read iff TLC has never used more than its capacity |
| Conversion.RunNotRead | src/dwpdsim/mqsim.py:304-305 | A run of the simulator whose trace the reader refuses, whatever its times, block size and streams |
| Trace.EventWritten | cpp/src/trace_writer.cpp:71-95 | Every event of a trace that replays names an address and a stream that were written together, by itself or before |
| Conversion.HitsOfMove | src/dwpdsim/mqsim.py:235-242 | A simulated relocation reuses exactly one storage-hit read if it is an access migration, and none otherwise |
| Conversion.BlockGroup | src/dwpdsim/mqsim.py:183-226 | The events of a moved block are exactly its read, write and trim, chained by dependency from SLC to TLC |
| Conversion.SimulatedTraceConverts | cpp/src/simulator.cpp:443-1037 | Every trace of the simulator can be lowered and passes the validator, and its overlapping commands are kept in order |
| Prefetch.StepInv | src/dwpdsim/input.py:247-322 | Every interleaving keeps the reserved bytes and batches equal to those queued, being replayed and being built, within the limits, in source order, with no wake-up lost |
| Prefetch.NoDeadlock | src/dwpdsim/input.py:247-322 | In every reachable state that is not final, failures and cancellation included, some thread can take a step |
| Prefetch.EveryStepWorks | src/dwpdsim/input.py:247-322 | Every step lowers a measure, so no run is endless |
| Prefetch.RunInv | src/dwpdsim/input.py:247-322 | Every run keeps the invariant and has at most 18 steps per item and 26 more |
| Prefetch.ReplayedPrefix | src/dwpdsim/input.py:221-231 | The replayed batches are always an in-order prefix of the source, numbered from zero |
| Prefetch.RunOutcome | src/dwpdsim/input.py:299-322 | Without failure the whole source has been replayed; after a source failure every batch before it has; a failed replay is not retried |
| Prefetch.ProducerAccounts | src/dwpdsim/input.py:254-294 | The producer's steps keep the accounts, the shrunk reservation of a queued batch included |
| Prefetch.ConsumerAccounts | src/dwpdsim/input.py:299-318 | The consumer's steps keep the accounts |
| Batching.CutTables | src/dwpdsim/input.py:74-136 | The batches hold exactly the requests of the accepted tables in order, numbered from zero and within the limits; cutting stops at the first table that is out of order in time or has too long a request |
| Batching.CutTable | src/dwpdsim/input.py:108-136 | One table's batches hold exactly its requests, each batch as long as the limits allow |
| Batching.StopOk | src/dwpdsim/input.py:109-119 | A batch has at least one request, keeps to the limits unless a single request is larger, and could not take one more |
| Batching.SliceRows | src/dwpdsim/input.py:120-133 | A batch's own buffers decode to exactly its requests |
| Batching.BatchFits | src/dwpdsim/input.py:37-42 | Every batch fits the bytes reserved for it |

## Left out

- Floating-point control: gap estimation, tier choice, idle and promotion thresholds, wear feedback; arbitrary choices under a contract stand for them. Retention and eviction size of the context policy are modelled over real numbers, without rounding of the arithmetic.
- Fixed-width overflow of counters, addresses and byte counts, except the guard that advances the periodic boundaries.
- `infinite_storage`, memory diagnostics, metrics, timers and work counters: no effect on the modelled state.
- The request steps that drive `ContextHistory.Replay` are taken as legal; the simulator rejects repeated request identities and times that move backwards before any of them.
- `Simulator.Sim` calls no policy object: it records what memory policies are told (`told`), which is proved to be a history they were proved for. What storage policies are told is not recorded; the round-robin policy, which asks for no relocation, is proved for every history of its own (`StorageReplay.Allowed`).
- `StoragePolicyState::oldest_segment` and `segment_first_ns`, a scan like the modelled ones over another timestamp.
- Null and type checks of columns before batches are cut.
- `Simulator.Sim` keeps each tier's allocator as a value; the same allocator updated in place is `Allocator.TierState`.
- SimulatorMigration.SomePolicyOverruns: stated where trimming what hangs aside makes the room; where still more has to be trimmed only the necessary condition is stated, since what can still be trimmed depends on the order in which pruning joins segments.
- ShadowGeometry.NominalEnough: for larger nominal capacities failing runs are shown by one example, not for every geometry.
- TraceReader.ReadRows: counts sectors; the header, the syntax of fields, the alignment to 512 bytes and a limit on the number of events are not modelled.
- Simulator.Sim.ExecuteRelocation: moves go from SLC to TLC only, as every policy asks for; the code's generic destination tier is not modelled.
- Quality of sampled eviction: only that a victim is found.
- `RadixTree.Radix` holds per-node data (flags, timestamps) elsewhere: searches take the marked nodes as a set.
- Commands.LowerEvents: predecessor identifiers are a set; their sorted listing and all text formats are not modelled.
- Reading Parquet, Arrow and Hugging Face sources, CSV, XML and JSON text, files, processes and the Python bindings.
- Prefetch.NoDeadlock: a source that never returns from reading, which the code waits for, is outside the model.
- Exceptions while worker threads are being created.
