# Proofs about LLAMA and DLLAMA

LLAMA stores a graph as a stack of CSR snapshots; DLLAMA runs it on several machines that exchange
nodes, edges and snapshot files. This project models the parts of the two where correctness is least
obvious and proves them in Dafny 4.11. `dafny verify dfyconfig.toml` checks everything.

**Multiversioned arrays** (`PageManager`, `SwcowArray`, `LevelCollection`). Levels of the vertex table
share reference-counted pages, and consecutive levels even share their whole page tables until the
first write. Growth is padded with one shared zero page, and freed pages form a list threaded through
their own first words. The specification in `LevelCollection` is a list of independent full copies;
`RunAndRead` and `FrozenLevel` say that over every legal run the sharing is invisible, and `RunMeans`
what the reads are in terms of the run itself: what was last written there before the next level. The hard part
is the accounting (`Collection.PoolAccounts`): a page's count is its number of (level, slot) pairs, so
that a count of 1 makes an in-place write exclusive. One finding: `release_page` compares the count,
not the page number, with `_zero_page`. Therefore the zero page is not protected by that test; it
survives because the newest level's extra slot keeps naming it once there has been any growth
(`DeleteKeepsZeroPage`), and `LoseZeroPage` is a run outside those rules that loses it. For the same
reason nothing is ever put on the free list while the zero page happens to be page 0, which the exact
contract of `ReleasePage` shows and `LosePage` exhibits; in every other pool no page is ever lost
(`NoPageLost`).

**Distributed protocols** (`Channels`, `NodeAllocation`, `AllocationProgress`, `AllocationHistory`,
`MergeBarrier`, `MergeRounds`). Any number of ranks, one FIFO channel for each pair (the non-overtaking rule, section 3.5 of the MPI 3.1
standard), any interleaving. `NodeAllocation` is mutual exclusion with rank priority: at most one rank holds all
acknowledgements, id ranges are disjoint and contiguous, and nothing gets stuck. `AllocationProgress`
bounds the length of every run by the number of calls in it, and finishes the calls in progress from
every reachable state; `AllocationHistory` says that the k-th range a rank gets is what its k-th call
asked for, and that in the end every rank has all the nodes that were asked for. `MergeBarrier` is one
round of the all-to-all barrier: whoever merges, merges the same. `MergeRounds` says what that is in terms
of the checkpoints taken in the round, that nobody merges before hearing everybody else in that round,
and that a round in which all merged leaves what the next one begins with. One finding: reloading the graph
after a merge leaves `current_snapshot_level` as it was, so that a rank that wrote snapshots in some round
and takes no checkpoint in a later one announces files that its reload has deleted. In the first round
everybody merges (`FirstRound`); in any round exactly those ranks do for which all others have taken a
checkpoint or never wrote a snapshot (`WhoMerges`), and `StaleLevel` is a second round in which a rank
waits for ever. In both protocols, a class holds the code of one rank, and each of its methods is proved to
do what the protocol step says.

**Breadth-first search** (`Graph`, `Levels`, `HybridBfs`). A search that changes the representation of
its visited set and of its frontier on the way, through five states. `Levels` is plain level-by-level
search, proved to compute distances; `HybridBfs` keeps to it in each state, records where each level
lies in the queue, and walks back through it. The main result is `RunBfs`.

**External sort** (`Merging`, `ParallelSort`, `ExternalSort`). The parallel in-memory merge, cut at
pivots, and the streaming merge of sorted files take the same step, moving the least head to the
output; `Merging` proves what it keeps, `ParallelSort` that the cuts tile and order the parts, and
`SortStream` that the stream is a sorted permutation of the input. Three findings: the pivot
lookup reads before the buffer unless the size is at least n * n for n threads (`FirstPivotExists`),
which 512 threads or fewer guarantee at the threshold, and 513 do not (`FirstPivotMissing`); after
`sort` there is never exactly one file, so the branch of `next_block` for one file is unreachable; and
the size that `size()` reports is never updated, although its comment says it is the number of
elements, which it is exactly while there are none (`Sort.Size`).

**CSR building and transposing** (`Slcsr`, `ReverseEdges`). `MakeReverseEdges` holds for all orders in
which the threads of the two passes may get to the edges. `LevelBuilder.InitNode` has the exact
condition on the order of nodes under which the vertex table comes out right.

**Merging snapshots** (`SnapshotFile`, `ChainWalk`, `SnapshotMerge`, `DistributedMerge`). A file is a
map from offsets to records, in which a write destroys what it overlaps; `FileInNumbers` is the layout
in bytes. `MergeAndReadBack` composes the walk along
continuation records, the merge, the layout and the reader. `WalkReturnsAllIff` gives the exact
condition under which the walk sees the whole list: a degree that deletions have lowered below the
number of values stored can end it early, as in `WalkLosesEdges`. `MergeOnTwoRanks` puts the barrier
and the merge together: after any run, two ranks that have merged have the same level 0, although they
disagree on the vertex counts of ranks that wrote no snapshot.

**Kernels** (`Walks`, `Sssp`, `Triangles`). Double-buffered relaxation gives shortest distances within
|V| + 1 rounds, in whatever order the edges are relaxed; when unweighted it agrees with the search
exactly if all distances fit the search's 16-bit level type (`UnweightedAgree`, `TooFar`). The triangle
counters count each triangle once, by merging, linear or binary search.

**Modified nodes** (`ModifiedNodes`). The page-skipping iterator returns exactly the nodes that differ
from the previous level, plus the nodes of pages that are the zero page, which it does not compare
(a first node on such a page excepted).

## Model

| member | source | states |
|---|---|---|
| PageManager.Manager.constructor | llama/include/llama/ll_page_manager.h:113-133 | A new pool is consistent: no pages, no zero page, an empty free list, every count 0. |
| PageManager.Manager.Grow | llama/include/llama/ll_page_manager.h:463-511 | Adding chunks leaves old pages and counts alone; every new page is zero with count 0, and the requested page now exists. |
| PageManager.Manager.Allocate | llama/include/llama/ll_page_manager.h:432-511 | Returns the head of the free list, or else a page never used; the page had count 0, has count 1 and is all zeros; no other page or count changes; the zero page is never handed out. |
| PageManager.Manager.AllocateRange | llama/include/llama/ll_page_manager.h:210-219 | The pages are distinct, free before and zero after; counts grow by exactly the pages returned. |
| PageManager.Manager.AcquirePage | llama/include/llama/ll_page_manager.h:229-238 | One page's count grows by the given number; nothing else changes. |
| PageManager.Manager.AcquirePages | llama/include/llama/ll_page_manager.h:247-259 | Every count grows by the page's number of occurrences in the list; no page's content changes. |
| PageManager.Manager.ReleasePage | llama/include/llama/ll_page_manager.h:305-332 | The count drops by one; a page is put on the free list exactly when its count reaches 0 and the zero page is not page number 0; the pool stays consistent, the zero page stays off the free list exactly when this did not release its last reference (or it is page 0), and no page is lost exactly when no count reached 0 or the zero page is not page 0. |
| PageManager.Manager.ReleasePages | llama/include/llama/ll_page_manager.h:341-351 | For any list, also one with slots that have no page: every count drops by the page's number of occurrences; every page that still has a reference keeps its content; and the zero page stays safe exactly if the list does not hold all its references, or it is page 0. |
| PageManager.Manager.Cow | llama/include/llama/ll_page_manager.h:270-296 | The copy is a page that was free, holds what the source holds and has count 1; the source loses one reference, and is freed if it was the last; all other pages keep count and content; the zero page stays safe exactly if this was not its last reference. |
| PageManager.Manager.ZeroPage | llama/include/llama/ll_page_manager.h:361-380 | All callers get the same page, it is all zeros, is not on the free list, and gains exactly the requested references. |
| PageManager.LoseZeroPage | llama/include/llama/ll_page_manager.h:314-314 | A run in which the test against _zero_page, which compares a count with a page number, frees the zero page: once its last reference is released, allocate hands the zero page out as a private page. |
| PageManager.LosePage | llama/include/llama/ll_page_manager.h:314-314 | A run in which the same test loses a page: once the zero page happens to be page 0, a page whose last reference is released is neither referenced nor on the free list. |
| PageManager.NoPageLost | llama/include/llama/ll_page_manager.h:305-332 | In every consistent pool whose zero page is not page 0, the free list is exactly the pages that have been used and have count 0: nothing leaks. |
| PageManager.ChainFrame | llama/include/llama/ll_page_manager.h:314-329 | The free list threaded through the first words of the freed pages is unaffected by writes to pages that are not on it. |
| SwcowArray.VertexArray.constructor | llama/include/llama/ll_mem_array.h:920-951 | A level has the least number of whole pages that hold its size and four more entries, and no tables yet. |
| SwcowArray.VertexArray.DenseInit | llama/include/llama/ll_mem_array.h:1038-1061 | All slots, including the extra one, get fresh zeroed pages, each referenced once. |
| SwcowArray.VertexArray.CopyIndirectionRange | llama/include/llama/ll_mem_array.h:1449-1484 | The slots of the range name the previous level's pages where it has them and the zero page beyond; each copied slot takes one reference, and slots outside the range do not change. |
| SwcowArray.VertexArray.CowInit | llama/include/llama/ll_mem_array.h:1089-1110 | A level that does not need more pages shares both tables of the previous level; otherwise it gets tables of its own, padded with the zero page; each of the level's own slots takes one reference. |
| SwcowArray.VertexArray.Unshare | llama/include/llama/ll_mem_array.h:1124-1136 | Before the first write the tables become private copies exactly when they are shared with the previous level, and name the same pages. |
| SwcowArray.VertexArray.CowWrite | llama/include/llama/ll_mem_array.h:1119-1171 | Only one slot of the page table can change: a page with one reference is written in place, any other is first copied; the old page then keeps its content and loses one reference. |
| SwcowArray.VertexArray.Destroy | llama/include/llama/ll_mem_array.h:957-978 | Every slot's reference is released, remaining pages keep their content, the zero page stays safe exactly if this level did not hold all its references (or it is page 0), and each table is freed exactly when neither neighbouring level shares it. |
| SwcowArray.HeldSlot | llama/include/llama/ll_mem_array.h:1144-1146 | If counts are the numbers of (level, slot) pairs naming a page, then a page with count 1 is named by no other slot of any level: writing in place is exclusive. |
| SwcowArray.FlattenWrite | llama/include/llama/ll_mem_array.h:1138-1145 | Writing one word of the page in one slot changes exactly one entry of what the level reads. |
| SwcowArray.FlattenZeroTail | llama/include/llama/ll_mem_array.h:1464-1483 | A level that extends another with the zero page reads as the other padded with zeros. |
| SwcowArray.AccountsAppend | llama/include/llama/ll_mem_array.h:1098-1109 | Counts stay equal to the number of holders when a level that took its references is added. |
| SwcowArray.AccountsRelease | llama/include/llama/ll_mem_array.h:957-959 | ... and when the oldest level releases its references. |
| SwcowArray.AccountsReplace | llama/include/llama/ll_mem_array.h:1163-1165 | ... and when a slot moves from a shared page to its private copy. |
| LevelCollection.NewLevelView | llama/include/llama/ll_mem_array.h:449-470 | A new level reads as a private, zero-padded copy of the previous newest level, and no other level changes. |
| LevelCollection.WriteView | llama/include/llama/ll_mem_array.h:1119-1171 | A write to the newest level changes one entry of that level and nothing in any other level. |
| LevelCollection.DeleteView | llama/include/llama/ll_mem_array.h:489-497 | Deleting the oldest level changes nothing in any other level. |
| LevelCollection.DeleteKeepsZeroPage | llama/include/llama/ll_page_manager.h:305-332 | The zero page survives the deletion of the oldest level because the newest level's extra slot still holds it once there has been any growth. |
| LevelCollection.SharingPush | llama/include/llama/ll_mem_array.h:1098-1109 | Adding a level keeps: two levels share both tables or none, sharers are consecutive, and the allocated tables are exactly those in use. |
| LevelCollection.SharingUnshare | llama/include/llama/ll_mem_array.h:1127-1133 | The first write to a level that shares its tables keeps that too. |
| LevelCollection.SharingDelete | llama/include/llama/ll_mem_array.h:961-977 | Deleting the oldest level frees its tables exactly when the next level does not share them: no table leaks and none is freed while in use. |
| LevelCollection.Collection.constructor | llama/include/llama/ll_mem_array.h:138-149 | An empty collection over a pool of its own is valid and has no levels. |
| LevelCollection.Collection.Get | llama/include/llama/ll_mem_array.h:1019-1032 | Reading through the page table returns what the level's private copy would hold. |
| LevelCollection.Collection.CountExistingLevels | llama/include/llama/ll_mem_array.h:533-539 | The number of levels that have not been deleted. |
| LevelCollection.Collection.CreateLevel | llama/include/llama/ll_mlcsr_sp.h:703-713 | The level init_level is about to add: initialized with the tables of the newest level or with new ones, so that with it behind the others the tables read as the specification's NewLevel step, and counts are numbers of holders. |
| LevelCollection.Collection.PushBack | llama/include/llama/ll_mem_array.h:449-480 | The level goes behind all others; the others stay what and where they are, and the tables allocated are still exactly those in use. |
| LevelCollection.Collection.InitLevel | llama/include/llama/ll_mlcsr_sp.h:703-713 | Creating a level (dense if it is the only one, copy-on-write otherwise) takes the collection's contents to the specification's NewLevel step. |
| LevelCollection.Collection.Write | llama/include/llama/ll_mem_array.h:1119-1171 | Takes the contents to the specification's Write step on the newest level. |
| LevelCollection.Collection.DeleteLevel | llama/include/llama/ll_mem_array.h:489-497 | Takes the contents to the specification's DeleteOldest step. |
| LevelCollection.Collection.KeepOnlyRecentLevels | llama/include/llama/ll_mem_array.h:505-514 | Exactly the given number of newest levels remain, with unchanged contents. |
| LevelCollection.Collection.PoolAccounts | llama/include/llama/ll_page_manager.h:305-332 | In every reachable state counts are numbers of (level, slot) pairs, free pages are distinct and uncounted, the zero page is zero and not free, and a page with count 1 is in one slot only; and unless the zero page is page 0, the free list is exactly the used pages that no slot names. |
| LevelCollection.FrozenLevel | llama/include/llama/ll_mem_array.h:1119-1171 | Snapshot isolation: over any legal run, a level that was not the newest at the start reads the same as long as it exists. |
| LevelCollection.DeletedStays | llama/include/llama/ll_mem_array.h:489-497 | Over any legal run the levels deleted are a growing prefix of the levels created. |
| LevelCollection.RunMeans | llama/include/llama/ll_mem_array.h:449-514 | What the specification's levels are in terms of the run: level k has the size of the k-th creation, as many entries as whole pages for that size and four more have, and in each entry the value last written to it before level k + 1 was created; the levels deleted are as many as the deletions. |
| LevelCollection.RunAndRead | llama/include/llama/ll_mem_array.h:449-514 | For every legal run of new levels, writes and deletions, started from nothing, every entry of every remaining level reads as in the specification where each level is an independent full copy, which is the value last written there before the next level was created, and 0 if there is none. |
| NodeAllocation.SharedState.HandleNewNodeRequest | dllama/snapshot_merger.cpp:158-177 | The rank's new state and the messages it sends are those of the protocol step: acknowledge, or defer if this rank is adding and the requester ranks lower. |
| NodeAllocation.SharedState.HandleNewNodeAck | dllama/snapshot_merger.cpp:200-208 | The new state is that of the protocol step. |
| NodeAllocation.SharedState.HandleNewNodeCommand | dllama/snapshot_merger.cpp:179-191 | The commanded number of nodes is added and one request is settled, as in the protocol step. |
| NodeAllocation.SharedState.BeginAddNodes | dllama/dllama.cpp:102-119 | A count that is not positive is refused and changes nothing; otherwise the rank is adding that count and has sent a request for it to every other rank, which is the state and the messages that Start and then Ask for every rank lead to, by steps of the protocol, in any system of which the rank is part. |
| NodeAllocation.AfterAsking | dllama/dllama.cpp:102-119 | Starting a call and asking the first n ranks, step by step, is possible, and leaves a state in which only that rank has changed: adding, with the count of the call, having asked n ranks; each of these but itself has one more message, the request with that count. |
| NodeAllocation.SharedState.FinishAddNodes | dllama/dllama.cpp:121-153 | Commands for all others, the local nodes and the deferred acknowledgements, as one protocol step; returns the first of the new ids. |
| NodeAllocation.SharedState.AddLocally | dllama/dllama.cpp:134-139 | The id returned is the first of the nodes added. |
| NodeAllocation.SharedState.ReleaseDeferred | dllama/dllama.cpp:141-150 | Every deferred request is acknowledged, last deferred first, and the flag is cleared. |
| NodeAllocation.FlushOrder | dllama/dllama.cpp:141-150 | The deferred acknowledgements go out one for each deferred rank, the last deferred first. |
| NodeAllocation.StepKeepsInv | dllama/snapshot_merger.cpp:158-208 | Every step of any number of ranks, in any interleaving, keeps the invariant that describes each pair of ranks' conversation and its two channels. |
| NodeAllocation.HolderIsAlone | dllama/snapshot_merger.cpp:169-174 | A rank that holds all acknowledgements is owed an acknowledgement by nobody, and nobody else can hold them all. |
| NodeAllocation.RunKeeps | dllama/dllama.cpp:102-153 | Over every run the invariant holds and nodes are conserved: each rank's nodes and the counts of commands still in flight to it add up to the base and all committed additions. |
| NodeAllocation.MutualExclusion | dllama/dllama.cpp:121-134 | In every state of every run at most one rank may commit, no command is in flight to it then, and its node count is the base plus all additions so far. |
| NodeAllocation.RangesDisjoint | dllama/dllama.cpp:134-152 | The id ranges returned by all add_nodes calls of a run are pairwise disjoint and contiguous, from the base on. |
| NodeAllocation.HighestAdderCommits | dllama/snapshot_merger.cpp:169-175 | In every state that the invariant allows, with no message in flight, the highest-ranked adder that has asked everybody has every acknowledgement. |
| NodeAllocation.NeverStuck | dllama/dllama.cpp:102-153 | In every state of every run some step other than starting another addition can be taken, exactly if some rank is adding or some message is in flight. |
| NodeAllocation.RanksAgree | dllama/dllama.cpp:134-138 | With no message in flight all ranks have the same nodes. |
| AllocationProgress.StepLeft | dllama/snapshot_merger.cpp:158-208 | A measure of what is left to do, over the adders, the deferred acknowledgements and all channels: starting an addition adds four units for each rank, and every other step of any rank takes some away. |
| AllocationProgress.RunsEnd | dllama/dllama.cpp:102-153 | Termination: however the steps of n ranks interleave, a run is no longer than 4n + 1 steps for each addition started in it. |
| AllocationProgress.CallsFinish | dllama/dllama.cpp:102-153 | From every state of every run the additions in progress can be finished without starting another, in no more steps than the measure says; then nobody is adding, nothing is in flight, and every rank has the base plus all additions. |
| AllocationHistory.GrantsMatchCalls | dllama/dllama.cpp:102-153 | In every state of every run, the k-th id range that a rank was given is as large as its k-th call asked for, and all its calls but one in progress have been answered. |
| AllocationHistory.AllAccountedFor | dllama/dllama.cpp:102-153 | In every state of every run, the numbers of nodes that all calls so far asked for add up to what has been granted and what the calls in progress are for. |
| AllocationHistory.NodesAtRest | dllama/dllama.cpp:102-153 | Once nobody is adding and nothing is in flight, every rank has the base and all the nodes that were ever asked for. |
| MergeBarrier.SnapshotMerger.constructor | dllama/snapshot_merger.cpp:24-35 | Nothing is received, and everybody but this rank is still to be heard from. |
| MergeBarrier.SnapshotMerger.Checkpoint | dllama/dllama.cpp:188-235 | One more level in the graph, which is now the current snapshot level, and its file number and vertex count go to every other rank. |
| MergeBarrier.SnapshotMerger.HandleSnapshotMessage | dllama/snapshot_merger.cpp:43-69 | The sender's latest file number and vertex count are recorded. |
| MergeBarrier.SnapshotMerger.HandleMergeRequest | dllama/snapshot_merger.cpp:87-150 | The state and messages are those of the protocol step: joining broadcasts once, and the merge happens when received and expected levels are equal. |
| MergeBarrier.SnapshotMerger.AllReceived | dllama/snapshot_merger.cpp:114-120 | True exactly when the two vectors are equal. |
| MergeBarrier.SnapshotMerger.MergeSnapshots | dllama/snapshot_merger.cpp:121-148 | Merges the received levels with this rank's own; then all received levels and vertex counts are 0, and every expected level is -1 but this rank's own, which is 0. |
| MergeBarrier.SnapshotMerger.NextRound | llama/include/llama/ll_writable_graph.h:2045-2073 | Reloading the graph gives it two levels again, and leaves the rest of the merger's state, also its current snapshot level, as it is. |
| MergeBarrier.StepKeepsInv | dllama/snapshot_merger.cpp:87-150 | Every step of any number of ranks keeps the invariant of one round, which says for each pair what the receiver knows, expects and will be told. |
| MergeBarrier.BarrierOpens | dllama/snapshot_merger.cpp:112-121 | The barrier opens only when every other rank has been heard, and then what is merged is what every rank had written when it joined, with the vertex counts that came with it. |
| MergeBarrier.Agreement | dllama/snapshot_merger.cpp:87-150 | In every state of every round, a rank that has merged did so once, after all ranks had joined and all others were up to date, with the snapshot levels all ranks had then and the vertex counts they had told it; its received levels and counts are 0 again, it expects -1 of everybody but 0 of itself, and nothing is in flight to it. |
| MergeBarrier.SameMerge | dllama/snapshot_merger.cpp:121-141 | Any two ranks that have merged in a round merged the same snapshot levels; their vertex counts have the same maximum, and differ only for ranks that wrote no snapshot. |
| MergeBarrier.Completion | dllama/snapshot_merger.cpp:87-150 | Once a rank has joined and every message has been delivered, a rank has merged exactly if the current snapshot level of every other rank is up to date. |
| MergeRounds.MergedCheckpoints | dllama/snapshot_merger.cpp:87-150 | What a rank has merged: of every other rank as many files as that rank took checkpoints in the round, with the vertex count of the last of them, and its own last vertex count; and every other rank had taken a checkpoint, or never written a snapshot in any round. |
| MergeRounds.WhoMerges | dllama/snapshot_merger.cpp:87-150 | When nothing is in flight any more, exactly those ranks have merged for which every other rank took a checkpoint in the round or never wrote a snapshot before. |
| MergeRounds.FirstRound | dllama/snapshot_merger.cpp:87-150 | In the first round all ranks merge. |
| MergeRounds.HeardEverybody | dllama/snapshot_merger.cpp:135-142 | In every round, whatever was merged before it, a rank does not merge before a merge request of every other rank has arrived in that round. |
| MergeRounds.RoundEnds | dllama/snapshot_merger.cpp:121-148 | A round in which all ranks have merged leaves what a round begins with: nothing in flight, nothing received, everybody to be heard from. |
| MergeRounds.AnyRound | dllama/snapshot_merger.cpp:121-148 | So does any number of rounds, whatever was done in each, and everything said about a round holds of each of them. |
| MergeRounds.StaleLevel | dllama/snapshot_merger.cpp:104-124 | Two ranks, the first of which writes one snapshot in one round and none in the next: in the second round it announces that snapshot again and merges it, although the reload has deleted it, while the other rank waits for it with nothing left in flight. |
| Levels.LevelIsDistance | llama/include/llama/ll_bfs_template.h:152-293 | The level of a node in a level-by-level search is its distance, and the other way round. |
| Levels.NextLevel | llama/include/llama/ll_bfs_template.h:384-446 | Seeing every edge out of a level, in any order and with any data structure, settles the next level and its down-edges. |
| Levels.Finished | llama/include/llama/ll_bfs_template.h:384-387 | A level without a next one ends the search with every reachable node's distance, and exact down-edges. |
| HybridBfs.Bfs.constructor | llama/include/llama/ll_bfs_template.h:81-150 | A freshly constructed and prepared search: no node visited, empty queues. |
| HybridBfs.Bfs.IterateNeighborSmall | llama/include/llama/ll_bfs_template.h:468-503 | Goes through a node's edges exactly as the specification does, with a map of levels and a set of down-edges, and puts what it finds behind the queue. |
| HybridBfs.Bfs.IterateNeighborQue | llama/include/llama/ll_bfs_template.h:607-647 | The same with bitmap, level array and a local queue. |
| HybridBfs.Bfs.IterateNeighborRd | llama/include/llama/ll_bfs_template.h:666-705 | The same without a queue: what it finds is only counted. |
| HybridBfs.Bfs.FinishThreadQue | llama/include/llama/ll_bfs_template.h:649-660 | The local queue goes behind the global one without touching what is recorded there, and fits. |
| HybridBfs.Bfs.LevelSmall | llama/include/llama/ll_bfs_template.h:172-179 | The nodes processed and visited are exactly those of the current level, each once, and all their edges have been seen. |
| HybridBfs.Bfs.LevelQue | llama/include/llama/ll_bfs_template.h:196-205 | The same for the queue state. |
| HybridBfs.Bfs.LevelQ2R | llama/include/llama/ll_bfs_template.h:222-231 | The same when the queue is read but none is written. |
| HybridBfs.Bfs.LevelRd | llama/include/llama/ll_bfs_template.h:249-258 | The same when the level is found by scanning the level array. |
| HybridBfs.Bfs.LevelR2Q | llama/include/llama/ll_bfs_template.h:275-284 | The same when it is scanned for and a queue is written again. |
| HybridBfs.Bfs.PrepareQue | llama/include/llama/ll_bfs_template.h:517-605 | The arrays represent the same levels and down-edges as the map and the set did. |
| HybridBfs.Bfs.FinishLevel | llama/include/llama/ll_bfs_template.h:422-446 | The recorded queue segments of all levels so far hold exactly their levels' nodes; the next level begins, with its queue unless the mode wrote none. |
| HybridBfs.Bfs.GetNextState | llama/include/llama/ll_bfs_template.h:384-420 | Done exactly when no next node was found, and then the answers are complete; otherwise the representation fits the next state: maps until 128 nodes, the queue until 1024 nodes that are five times as many as before, then scanning until at most twice as many, each change by way of its intermediate state. |
| HybridBfs.Bfs.DoBfsForward | llama/include/llama/ll_bfs_template.h:152-293 | Terminates, whatever path the five states take, with distances, down-edges, queue segments and visits complete. |
| HybridBfs.Bfs.DoBfsReverse | llama/include/llama/ll_bfs_template.h:295-335 | visit_rv is called once for every reached node, in non-increasing level, from queue segments where they exist and by scanning where not. |
| HybridBfs.Bfs.GetLevel | llama/include/llama/ll_bfs_template.h:366-376 | The distance from the root, or INVALID exactly for unreachable nodes. |
| HybridBfs.Bfs.IsDownEdge | llama/include/llama/ll_bfs_template.h:337-351 | True exactly for edges from some distance d to d + 1. |
| HybridBfs.RunBfs | llama/include/llama/ll_bfs_template.h:152-376 | For every graph and root: exact distances, exact down-edges, and each reachable node visited once forward in non-decreasing and once backward in non-increasing level. |
| Merging.LeastOfAll | llama/include/llama/ll_external_sort.h:647-669 | If the runs are sorted, the least of their heads is the least of all that is left. |
| Merging.TakeLeast | llama/include/llama/ll_external_sort.h:664-673 | Moving the least head to the output keeps the output sorted, nothing in it greater than what is left, and no element lost or duplicated. |
| Merging.MergeDone | llama/include/llama/ll_external_sort.h:672-676 | A merge with nothing left has sorted its runs. |
| ParallelSort.FindFirstGreaterThan | llama/include/llama/ll_external_sort.h:843-874 | The position from which on, and only from which on, the elements are greater than the key, for any strict weak order. |
| ParallelSort.Divide | llama/include/llama/ll_external_sort.h:730-734 | The ranges tile the buffer exactly, for any size and number of threads. |
| ParallelSort.FirstPivotExists | llama/include/llama/ll_external_sort.h:758-767 | The first pivot is inside the buffer, and not one before its beginning, exactly when the size is at least n * n. |
| ExternalSort.FirstPivotMissing | llama/include/llama/ll_external_sort.h:758-767 | It is not in the buffer with 513 threads at the smallest size that is sorted in parallel. |
| ParallelSort.CutRun | llama/include/llama/ll_external_sort.h:764-774 | The cuts of a run are in order and split it at every pivot. |
| ParallelSort.PlanMerge | llama/include/llama/ll_external_sort.h:758-774 | Every run is tiled by one range per thread, and all runs are split by the same pivots. |
| ParallelSort.PartsInOrder | llama/include/llama/ll_external_sort.h:758-774 | Nothing in a later thread's part belongs before anything in an earlier thread's part. |
| ParallelSort.WriteIndex | llama/include/llama/ll_external_sort.h:786-795 | Each thread's output begins where the parts before it end, and the last index is the size of the buffer, as the code asserts. |
| ParallelSort.PickLeast | llama/include/llama/ll_external_sort.h:808-817 | The run chosen has the least head of all runs that are not used up. |
| ParallelSort.MergeThread | llama/include/llama/ll_external_sort.h:797-822 | A thread's range of the result is its part, sorted, and it writes nothing outside that range. |
| ParallelSort.Merge | llama/include/llama/ll_external_sort.h:755-829 | The threads' outputs together are one sorted permutation of the buffer. |
| ExternalSort.Sort.StdSort | llama/include/llama/ll_external_sort.h:739-745 | The library sort on a range, as any function that sorts: sorted, a permutation, and nothing else changes. |
| ExternalSort.Sort.SortParts | llama/include/llama/ll_external_sort.h:730-745 | Every partial buffer is sorted and the buffer is still a permutation of what it was. |
| ExternalSort.Sort.SortBuffer | llama/include/llama/ll_external_sort.h:700-829 | The buffer returned, old or new, is a sorted permutation, on both branches. |
| ExternalSort.Sort.constructor | llama/include/llama/ll_external_sort.h:98-262 | An empty sorter. |
| ExternalSort.Sort.Size | llama/include/llama/ll_external_sort.h:297-303 | While elements are inserted and while they are read, size() is the number of elements inserted exactly if there are none. |
| ExternalSort.Sort.FlushBuffer | llama/include/llama/ll_external_sort.h:340-343 | The buffer becomes one more sorted run on file, and nothing is lost. |
| ExternalSort.Sort.Insert | llama/include/llama/ll_external_sort.h:311-327 | One more element is held, whether or not the buffer had to be flushed. |
| ExternalSort.Sort.StartCursors | llama/include/llama/ll_external_sort.h:534-549 | The cursors stand at the beginnings of all runs. |
| ExternalSort.Sort.SortAll | llama/include/llama/ll_external_sort.h:332-553 | The stream is ready, in memory if nothing was flushed and from files otherwise, and there is never exactly one file. |
| ExternalSort.Sort.RewindSorted | llama/include/llama/ll_external_sort.h:583-616 | The stream is ready again, from its beginning. |
| ExternalSort.Sort.Refill | llama/include/llama/ll_external_sort.h:651-663 | Reading the next block of a file changes nothing about what is left of its run. |
| ExternalSort.Sort.SelectHead | llama/include/llama/ll_external_sort.h:648-672 | The file chosen has the least head of all that have something left; none is chosen only if none has. |
| ExternalSort.Sort.MergeBlock | llama/include/llama/ll_external_sort.h:646-674 | A block continues the sorted output and is empty only when everything has been handed out. |
| ExternalSort.Sort.NextBlock | llama/include/llama/ll_external_sort.h:626-688 | True until everything has been handed out; each block but the last has elements, so the stream ends. |
| ExternalSort.Sort.Drain | llama/include/llama/ll_external_sort.h:626-688 | The concatenation of all blocks is sorted and a permutation of everything inserted. |
| ExternalSort.SortStream | llama/include/llama/ll_external_sort.h:311-688 | For every input, strict weak order, positive capacities and thread count n (n * n at most the threshold, unless the buffer is too small for the parallel branch): the stream is a sorted permutation of the input, and again after a rewind. |
| ReverseEdges.SequentialOrder | llama/include/llama/ll_mlcsr_graph.h:990-998 | The nested loops get to every edge exactly once, with its source. |
| ReverseEdges.CountPass | llama/include/llama/ll_mlcsr_graph.h:981-998 | Whatever the order of the pass: a node's count is its number of in-edges, and the edges into a node have distinct positions 0, 1, ... |
| Slcsr.CountEdges | llama/include/llama/ll_slcsr.h:163-168 | The number of edges and of nodes that have any. |
| Slcsr.InitLevelFromDegrees | llama/include/llama/ll_slcsr.h:157-191 | The vertex table holds the prefix sums of the degrees, and one more entry with their sum. |
| ReverseEdges.SlotInjective | llama/include/llama/ll_slcsr.h:202-211 | Different edges get different in-edges. |
| ReverseEdges.SlotOnto | llama/include/llama/ll_slcsr.h:202-211 | Every in-edge slot belongs to some edge. |
| ReverseEdges.WritePass | llama/include/llama/ll_mlcsr_graph.h:1044-1059 | Whatever the order of the pass: every edge's slot holds its source, and the two translations name each other. |
| ReverseEdges.MakeReverseEdges | llama/include/llama/ll_mlcsr_graph.h:973-1077 | For any orders of the two passes the result is a well-formed graph in which edge e from u to v has an in-edge at v with value u, and out_to_in and in_to_out are inverse bijections. |
| ReverseEdges.SameEdges | llama/include/llama/ll_mlcsr_graph.h:711-724 | As many edges lead from u to v as in-edges from v to u. |
| ReverseEdges.InNeighbours | llama/include/llama/ll_mlcsr_graph.h:711-724 | The in-neighbours of v are the multiset of the sources of the edges into v. |
| Slcsr.LevelBuilder.constructor | llama/include/llama/ll_slcsr.h:227-232 | No node is initialized. |
| Slcsr.LevelBuilder.InitNode | llama/include/llama/ll_slcsr.h:135-145 | A node's list starts where the lists so far end; the table stays one of prefix sums exactly if no edges were given before to the node or to nodes behind it, and none are given now in front of a node already initialized. |
| Slcsr.LevelBuilder.FinishLevelVertices | llama/include/llama/ll_slcsr.h:218-240 | After filling the holes every entry is the prefix sum of the degrees, also for nodes that were skipped. |
| Slcsr.TableSteps | llama/include/llama/ll_slcsr.h:275-278 | What degree() reads from a finished table, the difference of two entries, is the number of edges the node was given. |
| Slcsr.NodesOutOfOrder | llama/include/llama/ll_slcsr.h:135-145 | A run with nodes in the wrong order, after which the table is not one of prefix sums. |
| Slcsr.EdgeIterator.constructor | llama/include/llama/ll_slcsr.h:300-315 | Stands before the first edge of the node, with as many left as its degree. |
| Slcsr.EdgeIterator.Next | llama/include/llama/ll_slcsr.h:335-348 | Hands out the node's edges one after another with their targets, and then NIL for ever. |
| Slcsr.Find | llama/include/llama/ll_slcsr.h:413-422 | The first edge from the node to the value, and NIL exactly if there is none. |
| SnapshotMerge.InOrder | dllama/snapshot_merger.cpp:396-417 | Iterating over a std::set gives its elements in strictly increasing order. |
| SnapshotMerge.OneOrder | dllama/snapshot_merger.cpp:396-417 | There is only one such order. |
| SnapshotMerge.MaxElement | dllama/snapshot_merger.cpp:378-380 | One more than the largest vertex any rank has. |
| SnapshotMerge.Gather | dllama/snapshot_merger.cpp:396-412 | A vertex's neighbours are exactly those in level 0 and those that the walk finds in the deltas of the ranks r with vertex <= received[r] (or of this rank only). |
| SnapshotMerge.AllDeltas | dllama/snapshot_manager.cpp:160-188 | What the walk finds is the whole delta list if the degree counts it all. |
| SnapshotMerge.MergeTables | dllama/snapshot_merger.cpp:372-425 | There is one list more than the largest received count; each is strictly ascending and has exactly the neighbours in level 0 and in the deltas of all ranks, if no rank has deltas beyond its count (locally: of this rank); adj_list_start is the number of edges before the list, and degree and length are its size. |
| SnapshotMerge.MergedHasAll | dllama/snapshot_merger.cpp:372-425 | The lists merged from the ranks that are asked lose nothing: they have every neighbour in level 0 and in the deltas of any rank, if no rank has deltas beyond the count it sent, and a local merge those of this rank. |
| SnapshotMerge.EntryPoints | dllama/snapshot_merger.cpp:414-420 | The part of the edge table an entry points to is the vertex's list. |
| SnapshotMerge.AnyRankMergesAlike | dllama/snapshot_merger.cpp:372-425 | Two ranks that merge the same files get the same lists, although each puts its own vertex count into the vector, if the two vectors have the same maximum and differ only for ranks that have no snapshots. |
| SnapshotMerge.MergeAndReadBack | dllama/snapshot_merger.cpp:372-509 | Merging, writing the file and reading it back yields for each vertex exactly the merged list, whose elements are again exactly the neighbours in level 0 and in the deltas, and nothing beyond the last vertex. |
| SnapshotMerge.MergeNothing | dllama/snapshot_merger.cpp:372-509 | Merging when no rank has anything new gives the same level 0 again. |
| DistributedMerge.RanksMergeAlike | dllama/snapshot_merger.cpp:121-141 | In every run of the barrier, any two ranks that have merged read the same number of files of each rank and merge them into the same lists. |
| DistributedMerge.MergeOnTwoRanks | dllama/snapshot_merger.cpp:121-141 | So the level-0 files that two ranks write after any run read back as the same lists, which are the merged ones. |
| SnapshotFile.OutputFile.constructor | dllama/snapshot_merger.cpp:445-453 | An empty file. |
| SnapshotFile.OutputFile.Write | dllama/snapshot_merger.cpp:445-509 | The new record is in the file; what does not overlap it is still there; what overlaps it is gone; nothing else appears; and if no two records overlapped, none do now. |
| SnapshotFile.OutputFile.WriteTable | dllama/snapshot_merger.cpp:452-467 | Records written one after another are all there, and none of those before is lost. |
| SnapshotFile.OutputFile.SeekBlock | dllama/snapshot_merger.cpp:459-464 | Moves to the next block boundary, never back. |
| SnapshotFile.RoundsUp | dllama/snapshot_merger.cpp:459-464 | Rounding up to a block gives a multiple of the block size, adds less than a block and never goes back. |
| SnapshotFile.PagesBeforeHeader | dllama/snapshot_merger.cpp:486-495 | The last, partly filled page of the vertex table ends before the header for all numbers of edges and vertices exactly if the block size is a multiple of the page length. |
| SnapshotFile.PageBeyondHeader | dllama/snapshot_merger.cpp:486-495 | For every other block size, a number of vertices whose last page goes on behind the beginning of the header. |
| SnapshotFile.WriteTables | dllama/snapshot_merger.cpp:452-467 | The edge table is in its place, the vertex table begins at the next block, and neither overlaps the other. |
| SnapshotFile.WriteHeader | dllama/snapshot_merger.cpp:469-497 | The header and, right behind it, the indirection table, which names each page of the vertex table. |
| SnapshotFile.WriteMergedSnapshot | dllama/snapshot_merger.cpp:445-509 | Metadata, edge table, vertex table, header and indirection table are all in the file, where the metadata says, and no two records overlap, for any block size that holds the metadata. |
| SnapshotFile.FileInNumbers | dllama/snapshot_merger.cpp:445-509 | Such a file in numbers: edges of 8 bytes from the first block on, vertex entries of 16 bytes from the next block boundary, the header at the next one, the indirection table 32 bytes behind it with an entry of 16 bytes for each 2048 bytes of vertex entries, and as many of those as 128 vertices each make necessary. |
| SnapshotFile.Level0Neighbours | dllama/snapshot_manager.cpp:85-126 | For a vertex below the table's size, exactly the part of the edge table its entry points to; nothing otherwise. |
| ChainWalk.WalkReturnsAll | dllama/snapshot_manager.cpp:160-188 | If the degree counts every fragment, the walk returns all of them, newest first. |
| ChainWalk.WalkReturnsAllIff | dllama/snapshot_manager.cpp:175-186 | It does so exactly when the degree does not run out before the last fragment is reached. |
| ChainWalk.WalkLosesEdges | dllama/snapshot_manager.cpp:175-186 | Three edges in two fragments, with a degree of 2: the walk returns the two of the first fragment only. |
| ChainWalk.WalkChain | dllama/snapshot_manager.cpp:160-188 | Along any chain of strictly older levels the walk terminates, reads only records that exist, and returns the fragments until the degree is used up. |
| ChainWalk.NeighboursOfVertex | dllama/snapshot_manager.cpp:128-192 | The same from the latest level's tables; nothing if there is no level, or if the page is in level 0. |
| ChainWalk.NeighboursInPage | dllama/snapshot_manager.cpp:140-192 | Over any indirection table of 16-byte entries in the latest file and any page of 16-byte entries: entry vertex / 128 of the one gives the page, and entry vertex % 128 of the page starts the fragments that are returned. |
| ChainWalk.TwoOfAPage | dllama/snapshot_manager.cpp:128-192 | Two levels in which two vertices of one page have different lists: [7, 8] continued by [5] in the older level, and [9]; the reader returns each. |
| Walks.ShortWalk | benchmark/benchmarks/sssp.h:124-179 | For every walk there is one with fewer edges than there are nodes that weighs no more. |
| Sssp.NextRound | benchmark/benchmarks/sssp.h:124-179 | A round takes exact distances for walks of k edges to exact distances for walks of k + 1 edges. |
| Sssp.NoneMarked | benchmark/benchmarks/sssp.h:124-179 | From round max(|V|, 2) on no node is marked as updated. |
| Sssp.Finish | benchmark/benchmarks/sssp.h:124-179 | When no node is marked the distances are those of all walks. |
| Sssp.RelaxPass | benchmark/benchmarks/sssp.h:131-161 | Whatever the order of the edges: every edge of an updated node is relaxed, no distance grows, and a smaller one comes from some edge. |
| Sssp.CopyPass | benchmark/benchmarks/sssp.h:162-178 | The next buffers become the current ones, and the result says whether any node is updated. |
| Sssp.Weighted | benchmark/benchmarks/sssp.h:97-183 | Stops within |V| + 1 rounds; each distance is the least weight of all walks from the root, capped at INT_MAX - 1. |
| Sssp.AnyOrderAgrees | benchmark/benchmarks/sssp.h:97-183 | The distances are the same for any two orders in which the threads may get to the edges. |
| Sssp.UnweightedIter | benchmark/benchmarks/sssp.h:374-449 | The same with weight 1 for each edge. |
| Sssp.UnweightedBfs | benchmark/benchmarks/sssp.h:221-300 | For each reachable node the number between -32768 and 32767 that differs from its distance by a multiple of 65536; INT_MAX - 1 for the others. |
| Sssp.UnitShortest | benchmark/benchmarks/sssp.h:374-449 | With unit weights, least weight is least number of edges. |
| Sssp.UnweightedAgree | benchmark/benchmarks/sssp.h:221-449 | The iterative version returns exact distances; the breadth-first version returns the same on all nodes exactly if every distance is at most 32767, and so whenever there are at most 32768 nodes. |
| Sssp.TooFar | benchmark/benchmarks/sssp.h:221-229 | On a path of 32769 nodes the breadth-first version returns -32768 for the last node, which is 32768 edges away. |
| Triangles.FindAdjLinear | benchmark/benchmarks/triangle_counting.h:481-486 | True exactly if the target is in the list. |
| Triangles.FindAdj | benchmark/benchmarks/triangle_counting.h:497-518 | The same, by linear search below 32 elements and by binary search from there on. |
| Triangles.CountTriangles | benchmark/benchmarks/triangle_counting.h:531-567 | The number of common neighbours above v, whether by merging or by searching. |
| Triangles.CountFor | benchmark/benchmarks/triangle_counting.h:373-408 | The same with the two iterators. |
| Triangles.CountMore | benchmark/benchmarks/triangle_counting.h:436-445 | A pair u < v adds exactly the triangles with u and v as their first two nodes. |
| Triangles.RunLU | benchmark/benchmarks/triangle_counting.h:416-459 | Each triangle u < v < w is counted once. |
| Triangles.RunLOD | benchmark/benchmarks/triangle_counting.h:602-654 | The same, although only the rest of u's list is passed on. |
| ModifiedNodes.VertexIterator.Begin | llama/include/llama/ll_mem_array.h:1213-1234 | Ranges over the nodes up to the end given, or up to the level's size if the end is -1 or beyond it; stands at the first node exactly if it has changed, and otherwise at the next node the iterator stops at. |
| ModifiedNodes.VertexIterator.Next | llama/include/llama/ll_mem_array.h:1243-1302 | Returns the current node and moves to the next one that differs, has no counterpart or is on the zero page, skipping none. |
| ModifiedNodes.VertexIterator.Scan | llama/include/llama/ll_mem_array.h:1278-1290 | Within a page, stops at the first entry that differs. |
| ModifiedNodes.Iterate | llama/include/llama/ll_mem_array.h:1213-1302 | The nodes returned are strictly increasing, and are exactly those n with start <= n below the size, and below the end unless that is -1, whose entry reads differently in the previous level or does not exist there, and, except for the first, those on the zero page; the iteration ends. |
| ModifiedNodes.DifferingEntries | llama/include/llama/ll_mem_array.h:1243-1302 | An entry differs in the page tables exactly if reading the two levels gives different values, or the previous level has no entry for the node. |

## Left out

- Parallel executions: OpenMP regions run their threads one after another, except in `ReverseEdges` and `Sssp`, whose passes take any order of the edges; the lock-free free list, the spinlocks of `cow_write` and the multithreaded mode of the search are not modelled.
- LevelCollection.RunAndRead: covers runs in which sizes do not decrease, only the newest level is written while its predecessor is alive, and levels are deleted oldest first but for the newest; `LoseZeroPage` shows what the page pool does outside such rules.
- LevelCollection.Collection.InitLevel: needs a size that is not less than the newest level's, because a smaller level would share tables that are longer than it is; `VertexArray.CowInit` covers that case for one level.
- LevelCollection.Collection.Write: writes the newest level while its predecessor is alive, because `cow_write` looks at the predecessor's tables before the first write.
- LevelCollection.Collection.DeleteLevel: deletes the oldest level, and not the newest, because the newest level holds the zero page; `VertexArray.Destroy` covers any level.
- LevelCollection.Collection.KeepOnlyRecentLevels: needs at least one level to keep, because deleting the newest level is not part of the runs modelled.
- PageManager.Manager.Allocate: one free list instead of one per thread; the element type is one word, which is what the free list's link occupies; pools without zeroing are not modelled.
- Level numbers that wrap around, read-only clones of a collection, and the flat and mmap variants of the array.
- NodeAllocation.SharedState.FinishAddNodes: sending the commands, adding locally and releasing the deferred acknowledgements is one step; at finer grain a command could arrive between two local additions.
- MergeBarrier.Agreement: is about rounds one after another, the next of which begins when all ranks have merged and reloaded; the messages carry no round number, so rounds that overlap are not covered.
- MergeRounds.AnyRound: as in `dllama_number_of_vertices`, a rank's vertex count is that of its last checkpoint in any round, or that of the graph loaded at the start; what the reload does to memory and files besides resetting the number of levels is not modelled.
- MergeBarrier.SnapshotMerger.HandleSnapshotMessage: file and vertex numbers are numbers; the bytes that encode them, of which those of the file number go through a signed char, and the snapshot file itself are left out.
- The asynchronous listener, new edges and shutdown; of reloading the graph after a merge only what it does to the number of levels is modelled.
- HybridBfs.RunBfs: no navigator, sequential mode, levels that fit their type, and a freshly constructed object, since `prepare` does not clear `small_visited`; the bitmap's bits are booleans, and an edge id is a position in one level's edge table, so the per-level and writable-level arrays of down-edges are one array.
- ExternalSort.SortStream: files are sequences that are read and written without error; the hierarchical merge, `clear`, and the automatic choice of the buffer size are left out, as is the branch of `next_block` for a single file, which cannot be reached.
- ExternalSort.Sort.StdSort: the library's sort is any function that returns a sorted permutation.
- ReverseEdges.MakeReverseEdges: a single level without deletions; positions are unbounded, whereas the code keeps them in 32 bits; both edge translations are arrays.
- SnapshotFile.WriteMergedSnapshot: offsets and sizes are unbounded, whereas the code computes them as `int`; the block size is any number of at least 48 bytes.
- ChainWalk.NeighboursOfVertex: the snapshot files are assumed to have the delta format, with the continuation record of each fragment behind it and equal edge table offsets; ll_mlcsr_sp.h and ll_persistent_storage.h, which write that format, are not part of this model.
- SnapshotMerge.MergeTables: that nothing is lost needs every rank's deltas to end at the vertex count it sent, which is the number of its last vertex; a rank is only asked for vertices its snapshots have a page for; `MergeBarrier` models the step that puts the merging rank's own vertex count into the vector.
- DistributedMerge.MergeOnTwoRanks: the files a rank has received are the files their sender wrote.
- Sssp.Weighted: weights are non-negative integers and sums do not overflow the weight type.
- Sssp.UnweightedBfs: a sequential search with unbounded levels, each converted to short where `visit_fw` reads it; in the code the level array holds shorts as well, so that from level 65534 on a search that scans that array may visit the wrong nodes.
- ModifiedNodes.VertexIterator.Begin: the first node is not beyond the size of the level, because the code looks up its page before it compares anything.
- Triangle counting on the union of in- and out-lists, and for writable graphs.
- Tarjan's components, depth-first search, the floating-point kernels and the bidirectional search in misc/frappe.
- Memory pools, the growable array (a sequence here), the bit packing of edge ids, and command-line handling: they would only add easy members.
