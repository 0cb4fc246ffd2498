# A verified model of BuildKit's solver and caches

This project models the parts of BuildKit that decide what is built, what is reused and what may be
thrown away, and proves what these parts promise:

- the **scheduler** and the **edge** state machine: edges (outputs of vertexes) send each other requests
  over pipes, go from initial over cache-fast and cache-slow to complete, and are merged when their cache
  keys coincide (`SolverTypes`, `Edges`, `Scheduler`, `DispatchQueue`);
- the **cache key graphs**: the edge index, the in-memory key storage and the cache manager on top of it.
  All are graphs of links that are queried for matches and collected recursively (`KeyGraph`, `EdgeIndex`,
  `MemoryStore`, `CacheManager`);
- **lifetimes**: owner chains and release counts of merged edges, jobs with the states they load, and
  results shared by cloning (`Ownership`, `JobStates`, `SharedResults`);
- the **snapshot cache**: usage analysis, two-phase pruning, layer chains of merges and diffs, memoised
  digest chains and the skipped base of a snapshot merge (`DiskUsage`, `CachePrune`, `Layers`,
  `SnapshotMerge`);
- the **content hash tree**: byte-ordered keys, the walk that skips subtrees, and the digests that have to
  be computed again after changes (`KeyOrder`, `ContentHash`).

Code that updates things in place is modelled by classes with methods and loops; what the methods keep is
stated by predicates over values (maps, sets and sequences), and the hard steps are lemmas about these.
Steps that happen concurrently are methods of one object that may be called in any order; `Scheduler.Run`,
`Ownership.Run`, `JobStates.Run`, `ContentHash.Run` and `CachePrune.Take` put all of them together.
`dafny verify dfyconfig.toml` checks everything.

Contracts that only carry invariants along are written as equations, `P() == Q() == true` instead of
`P() && Q()`. Both say the same; the verifier expands a conjunction of predicates into all their parts wherever
it is assumed or shown, but keeps an equation whole, and the larger methods need that.

Where a promise does not hold for all inputs, the model keeps the code as it is, shows an input or a run on which
it fails and states exactly when it holds:

- an edge that was merged but is still answered by the edge factory leaves a request open without waiting for
  anything: `Scheduler.MergedThenAsked`, `Scheduler.Scheduler.AskAgain`, `Scheduler.Scheduler.Dispatch`,
  `Scheduler.Scheduler.StuckIsMoved`; that it may still be answered: `Ownership.UnownedAfterMerge`,
  `Ownership.Solver.TryMerge`;
- merges can make edges each other's inputs: `Ownership.MergesCanCycle`, `Scheduler.Scheduler.StuckOnlyInCycle`;
- a request without a payload is read: `Scheduler.MissingInputAskedTwice`,
  `Scheduler.Scheduler.CreateOutgoingRequest`;
- a released edge is stored in the index: `Ownership.StoreReleased`, `Ownership.Solver.LookUp`;
- an index can keep cycles even though keys have none: `EdgeIndex.AlternativesCanCycle`,
  `EdgeIndex.Index.ReleaseAll`, `KeyGraph.CyclesExactly`, `KeyGraph.CyclesByStep`;
- children found under the digest without cache: `JobStates.HiddenChild`, `JobStates.LoadKeeps`;
- releases before the first clone: `SharedResults.NeverCloned`, `SharedResults.ReleasedThenCloned`,
  `SharedResults.ReleasedExactly`;
- names that start with byte 0xff: `ContentHash.WalkGoesAstray`, `ContentHash.WalkExactly`,
  `ContentHash.ProperExactly`;
- directories deleted or replaced in the transaction that changed something below them:
  `ContentHash.OrphanIsLeft`, `ContentHash.FileBecomesDirectory`, `ContentHash.ChangeKeepsExactly`,
  `ContentHash.DeleteClosedExactly`, `ContentHash.ResetClosedExactly`, `ContentHash.CommitExactly`;
- a mutable record committed twice, or released after its equal was finalized: `CachePrune.CommittedTwice`,
  `CachePrune.Cache.Commit`, `CachePrune.FinalizedThenReleased`, `CachePrune.Cache.ReleaseRef`.

Digests are opaque: a directory digest is the list it was computed from. Identifiers made at random are
modelled by a counter. Answers of operations, of cache storage behind the edges, of the merge lookup and of
the edge factory are arbitrary values of the right kind. Iteration over Go maps is in arbitrary order.

## Model

| member | source | states |
|---|---|---|
| `Edges.Pipe.Receive` | solver/internal/pipe/pipe.go:173-180 | copies the sender's status to the receiver, reports whether it changed, and nothing is unread afterwards |
| `Edges.Pipe.Update` | solver/internal/pipe/pipe.go:147-150 | replaces the sender's value, leaves it open and marks it unread |
| `Edges.Pipe.Finalize` | solver/internal/pipe/pipe.go:152-167 | completes the sender once with a value or an error and marks it unread |
| `SolverTypes.BoundsMeaning` | solver/edge.go:489-526 | the flags folded over the inputs say: every input has its fast key, every input has its slow key, every input is slow or matched, every input is done |
| `SolverTypes.HighMeaning` | solver/edge.go:504-513 | the upper bound of the state is the least effective state of the inputs, at most cache-slow |
| `SolverTypes.LowMeaning` | solver/edge.go:501-503 | the lower bound is reached by an input without matches that waits for no slow key, and none such is above it |
| `Edges.Edge.ProbeCache` | solver/edge.go:199-219 | matches found for an input only grow its key map; an edge that ignores the cache probes nothing |
| `Edges.Edge.CheckDepMatchPossible` | solver/edge.go:222-228 | a match becomes impossible exactly with an input that has none and nothing left to get one from |
| `Edges.Edge.ProcessCacheMapReq` | solver/edge.go:572-622 | an answer sets the cache map, whether it was the last one, and the next index, asks again if not, and raises an edge without inputs to cache-slow and records the digest; keys have changed exactly if every input has one, and a match is impossible exactly with an input that cannot get one; an error is kept unless cancelled; the edge stays consistent |
| `Edges.Edge.ProcessExecReq` | solver/edge.go:624-651 | a result completes the edge and is never undone; a failed cache load drops exactly the records that were tried, any other failure fails the edge unless cancelled |
| `Edges.Edge.ProcessDepReq` | solver/edge.go:653-701 | exactly the state, keys and result the input reports are copied, its matches only grow, and the change is reported exactly if keys or state moved; keys count as changed exactly if new ones leave no input without, or the input completes; no match is possible exactly if this input now cannot get one |
| `Edges.Edge.ProcessDepSlowCacheReq` | solver/edge.go:703-730 | an error clears the request and is kept unless cancelled; a digest completes the slow cache of the input, once, becomes its slow key unless it is empty, and what is found under it is matched; keys have changed then, and a match is impossible exactly if this input cannot get one; no match is lost and nothing else about the inputs changes |
| `Edges.Edge.ProcessInputUpdate` | solver/edge.go:409-423 | a reply to a request to an input has its state copied as by the latest request, a completed content-based key is taken over, and any other reply changes nothing about the inputs |
| `Edges.Edge.NewKeys` | solver/edge.go:427-453 | finds exactly the keys that every input has matched and the edge does not know yet |
| `Edges.Edge.ComputeBounds` | solver/edge.go:489-526 | one pass over the inputs computes the bounds that the fold defines |
| `Edges.Edge.ApplyBounds` | solver/edge.go:527-540 | the state is raised to the bounds, or reset to initial without a cache map and keys; the flags agree with the inputs afterwards |
| `Edges.Edge.OpenKeysExhausted` | solver/edge.go:542-567 | true exactly if no key is matched by all settled inputs and still open, which is when the state may go to cache-slow |
| `Edges.Edge.RecalcCurrentState` | solver/edge.go:427-570 | the keys that every input has matched join the key map and, once each, the keys of the edge, unless the cache does not answer; the state is raised to what the inputs allow, and to cache-slow with records and no open key; flags agree with the inputs, whatever changed in them |
| `Edges.Edge.ProcessUpdates` | solver/edge.go:384-423 | after all replies of a dispatch the edge is consistent and exactly the completed own requests have had their effect |
| `Edges.Edge.KeyMapIsIntersection` | solver/edge.go:427-453 | the incrementally built key map always equals the intersection of the inputs' key maps |
| `Edges.Edge.LoadCache` | solver/edge.go:966-983 | a cached result is loaded only for a key that every input matched, and never by an edge that ignores the cache |
| `Edges.Edge.DesiredStateDep` | solver/edge.go:852-889 | never below the state the input has, one state more at a time unless forced or no match is possible, and then complete; with cache records a cache-slow input is not asked for its result when the edge is to be complete; an input without a match is otherwise asked for more, at cache-slow for a content-based key only if it has one; one with a match waits at cache-fast while another can still get one |
| `Edges.Edge.MatchedInTurn` | solver/edge.go:852-889 | exactly when an input with a match is asked for more: from cache-fast once no other input can still get a match, if all have keys, or all are at cache-fast and the edge has none; for its result only without records, with all slow keys known or one of its own to compute, and not before other inputs without a match |
| `Edges.Edge.NeverStuck` | solver/edge.go:326-368 | if every request the edge remembers was processed, no cache map is missing, the edge cannot execute and all inputs are exhausted, then it has reached the desired state |
| `Edges.Edge.AlwaysAsks` | solver/edge.go:326-368 | an edge below the desired state that waits for no answer of its own always has something to ask: forcing finds it |
| `Edges.Edge.AskInput` | solver/edge.go:891-910 | the new request replaces the old one of the input and the edge stays consistent |
| `Edges.Edge.AskExec` | solver/edge.go:934-956 | execution is requested with cached records or with all inputs complete, and becomes the only request of its kind that is not done |
| `DispatchQueue.Queue.Signal` | solver/scheduler.go:193-207 | the linked list gains the edge at its end exactly if it is not waiting, which is the sequence the scheduler works with; list and wait set hold the same edges without repeats |
| `DispatchQueue.Queue.Pop` | solver/scheduler.go:61-97 | the first edge leaves the linked list and the wait set, and the rest keeps its order |
| `Scheduler.Scheduler.Signal` | solver/scheduler.go:193-207 | an edge is queued once |
| `Scheduler.Scheduler.NewPipe` | solver/scheduler.go:246-270 | the open pipe is listed exactly once under its target and once under its requester, and the target is queued |
| `Scheduler.Scheduler.NewFuncRequest` | solver/scheduler.go:272-286 | a function request is listed once under its edge and has no target |
| `Scheduler.Scheduler.Decide` | solver/edge.go:734-787 | computes the highest state that an uncancelled request wants, and that all can be completed exactly if none blocks |
| `Scheduler.Scheduler.RespondToIncoming` | solver/edge.go:734-817 | every request is answered, or exactly one stays open and all own requests are cancelled, or some stay open and the edge has more to do; without active requests the last case is the one exactly if some request blocks; an answer is the state of the edge with its error or cancellation, and a request that stays open is told the state exactly if it knows another one and is not cancelled; builds may be cancelled meanwhile |
| `Scheduler.Scheduler.CreateInputRequests` | solver/edge.go:819-838 | asks exactly if some input is below the state wanted from it without an open request for that state, or needs its slow key; afterwards every input below the state wanted has a request for that state and the others have the one they had; what is added is open |
| `Scheduler.Scheduler.CreateOutgoingRequest` | solver/edge.go:891-910 | a request for the same state that is not answered is kept; any other is cancelled and replaced by a new open one for the state wanted; the payload that is read is missing exactly if the open request is one for an input without an edge |
| `Scheduler.MissingInputAskedTwice` | solver/edge.go:892-893 | an input on which it is missing: an edge whose input has no edge is asked for it twice before the first request has failed |
| `Scheduler.Scheduler.ComputeCacheKeyFromDep` | solver/edge.go:912-930 | a completed input with a content-based key or a preprocess function and no such request gets one, which is open and remembered; otherwise nothing changes |
| `Scheduler.Scheduler.ExecIfPossible` | solver/edge.go:934-963 | exactly if there are cache records or all inputs are complete something is started: an open request to load or to execute, which becomes the current one, exactly if keys have not changed, and otherwise a request that only postpones; loading cancels the requests to inputs |
| `Scheduler.Scheduler.GoOn` | solver/edge.go:343-368 | an edge whose requests stay open, and that waits for nothing yet, makes a request exactly if it has something to ask: a cache map, the execution, or something of an input when forced; if the result is wanted, records or all inputs are there and keys have not changed, it executes afterwards |
| `Scheduler.Scheduler.AskInputs` | solver/edge.go:361-367 | what every input is asked for: with force exactly if nothing was to be asked without, no request is active and no cache map was asked for |
| `Scheduler.Scheduler.Answer` | solver/edge.go:334-368 | the contract the source states for itself, with its exact exceptions: requests stay open while nothing is waited for exactly if the edge is stuck, something is waited for without requests exactly if it was before and there are none, and in all other cases requests stay open if and only if something is waited for |
| `Scheduler.Scheduler.StuckIsMoved` | solver/scheduler.go:289-333 | an edge is stuck only if a merge has moved its requests, it has been asked since, and it waits for one of the moved ones, which another edge will receive |
| `Scheduler.Scheduler.Unpark` | solver/edge.go:334-368 | when nothing new was received, requests are left open without anything to wait for exactly if the edge was stuck; open requests for nobody only wake the edge up, and only after a merged edge was asked again |
| `Scheduler.Scheduler.MergeTo` | solver/scheduler.go:289-333 | moves every pipe of the merged edge to the other, nothing is lost or listed twice, the merged edge is left with no lists and may still be asked; the target is queued; refused only for an edge that ignores the cache into one that does not |
| `Scheduler.Scheduler.TryMerge` | solver/scheduler.go:154-177 | merges exactly if the keys changed, each input has a key, another edge is found that is no dependency, and the ignore-cache rule allows it; in either direction, whatever the edge factory answers afterwards, all invariants are kept; otherwise nothing changes |
| `Scheduler.Scheduler.MarkFailed` | solver/edge.go:377-382 | an edge is failed, and woken up by a new request the first time only |
| `Scheduler.Scheduler.Dispatch` | solver/scheduler.go:100-190 | a dispatch ends with open incoming requests if and only if it ends with open outgoing ones, unless a merged edge has been asked again; it leaves incoming ones behind only for such an edge, which then fails; without new replies it does so exactly if the edge is stuck; if neither the edge factory nor the index answers with a merged edge no such edge is asked; an edge that is asked for its result and not complete waits for a cache map or has records, and with records or all inputs done it executes, unless keys have changed, which they have not without new replies; all invariants hold again in every case |
| `Scheduler.Scheduler.ExecPending` | solver/edge.go:934-963 | in every reachable state the request to execute of an unmerged edge without a result is open and listed under it |
| `Scheduler.Scheduler.AskAgain` | solver/scheduler.go:179-189 | every edge without lists that waits for a cache map and executes or has no inputs, when it is built, ends its dispatch with the request open and nothing to wait for: the first error branch is taken |
| `Scheduler.MergedThenAsked` | solver/scheduler.go:154-189 | a run that gets there: an edge is merged while the next cache map is computed, the edge factory still answers with it, and it is built again |
| `Scheduler.Scheduler.Step` | solver/scheduler.go:61-97 | one turn of the loop, with the same guard, keeps the invariants and never undoes a result |
| `Scheduler.Scheduler.Build` | solver/scheduler.go:210-243 | a build request is listed once, at the end, under the edge that the edge factory answers with, which is queued; without one nothing happens |
| `Scheduler.Scheduler.CancelRequest` | solver/internal/pipe/pipe.go:182-189 | a cancelled request is seen: its target is queued |
| `Scheduler.Scheduler.FunctionDone` | solver/internal/pipe/pipe.go:66-85 | a finished function queues the edge that waits for it, so no wakeup is lost |
| `Scheduler.Scheduler.LoadIsCurrent` | solver/edge.go:934-956 | a request to load that is not answered is the current one of the edge that made it, even after a merge, and that edge has no result and has records to load |
| `Scheduler.Scheduler.StartLoad` | solver/edge.go:966-983 | whenever a load starts, in any reachable state, it finds a record, under a key that every input matched, and marks it as tried; an edge that ignores the cache never loads |
| `Scheduler.Scheduler.NoDeadlock` | solver/edge.go:326-333 | in every reachable state with an empty queue and no running function, and no cycle of requests, every request has been answered and no edge lists any, also where merged edges were asked again |
| `Scheduler.Scheduler.StuckOnlyInCycle` | solver/edge.go:326-333 | in such a state every request has been answered if and only if the open requests form no cycle |
| `Scheduler.Scheduler.EveryEdge` | solver/edge.go:427-651 | in every reachable state every edge has a result exactly if it is complete, holds no cache record if it ignores the cache, has the intersection of its inputs' key maps as its own, and holds only records found under keys every input matched |
| `Scheduler.Scheduler.BuildGetsResult` | solver/scheduler.go:210-243 | a build that is answered without an error has the result of a complete edge |
| `Scheduler.Run` | solver/scheduler.go:61-190 | for every interleaving of loads, builds, cancellations, started cache loads, finished functions, changes of what the edge factory answers, merges and dispatches all invariants hold, and every dispatch is balanced unless a merged edge was asked again, which never happens while neither the edge factory nor the index answers with one |
| `KeyGraph.SharedAlternativesMatch` | solver/index.go:177-241 | whatever is stored under a key is matched by every key that shares an alternative for each input |
| `KeyGraph.ExactlyCollected` | solver/index.go:40-79 | recursive removal that spares cycles leaves exactly the items with a use: those in a set whose members have an edge or link into the set |
| `KeyGraph.CoreStays` | solver/index.go:56-79 | a cycle of items survives collection with its links |
| `KeyGraph.CyclesExactly` | solver/index.go:124-154 | linking an item makes a cycle exactly if there was one or the item leads to one of the items it is linked from |
| `KeyGraph.CyclesByStep` | solver/index.go:124-175 | a series of linkings makes a cycle exactly if there was one or some step links an item from one that it leads to |
| `EdgeIndex.Index.EnforceLinked` | solver/index.go:124-154 | afterwards the item is linked from every identifier of every alternative of every input, and links and deps stay inverse |
| `EdgeIndex.Index.EnforceIndexID` | solver/index.go:156-175 | a key gets exactly its matches as identifiers, or a new one exactly if it has none, and links are added only from its inputs to its own items; a key that has identifiers keeps them |
| `EdgeIndex.Index.GetAllMatches` | solver/index.go:177-241 | returns exactly the declarative match set: items linked, for every input, from at least one alternative |
| `EdgeIndex.Index.LoadOrStore` | solver/index.go:81-121 | the edge returned is another one, named by an item that matches the key, and is not merged against the ignore-cache rule; none is returned only if all matches are this edge's, one has no edge, or the rule forbids it; then this edge is stored under a match, or a new item exactly without matches; a cycle is there afterwards exactly if there was one before, or a step that identified an input closed one, or the item led to an input's item |
| `EdgeIndex.Index.ReleaseLink` | solver/index.go:56-79 | recursion terminates on any graph; only links to removed items go |
| `EdgeIndex.Index.Release` | solver/index.go:30-54 | the edge is named nowhere any more and exactly the items with a use are left, without links to the others |
| `EdgeIndex.Index.ReleaseAll` | solver/index.go:30-79 | after all stored edges are released the index is empty if and only if it held no cycle |
| `EdgeIndex.AlternativesCanCycle` | solver/index.go:81-121 | a run: two keys without cycles are stored in a new index, all edges are released, and an item that links to itself is left for ever |
| `Ownership.Solver.GetEdge` | solver/jobs.go:219-237 | a slot resolves to the end of its owner chain, which always exists and is not released, or gets a new edge |
| `Ownership.Solver.TakeOwnership` | solver/edge.go:125-131 | merging joins two distinct unowned edges: chains stay finite, counts add up, the merged edge leaves the index and is released once |
| `Ownership.Solver.SetEdge` | solver/jobs.go:239-269 | an inactive vertex, or a slot that resolves to the target already, changes nothing; else exactly the edge the slot resolved to, or a new one, is owned by the target, and whatever resolved to it resolves to the target |
| `Ownership.Solver.LookUp` | solver/index.go:81-121 | the edge found is another one, unowned and not released; the index names only such edges afterwards if and only if one was found or the edge that is stored is one |
| `Ownership.Solver.TryMerge` | solver/scheduler.go:154-177 | the merged edge becomes owned exactly if the state of its own slot is active and the slot still resolves to it; else nothing about it changes and the same slots resolve to it; all invariants are kept, in both directions, except that the index names a released edge exactly if one has been stored |
| `Ownership.StoreReleased` | solver/index.go:81-121 | a run: an edge whose state was released is looked up afterwards, and the index names it |
| `Ownership.UnownedAfterMerge` | solver/jobs.go:519-533 | a run: two outputs share an edge, the state it was made for is released, and then it is merged into another edge; it stays unowned, and an active slot still resolves to it |
| `Ownership.Solver.ReleaseSlot` | solver/edge.go:134-147 | the edge is released exactly with the last slot that resolves to it |
| `Ownership.Solver.ReleaseState` | solver/jobs.go:378-393 | releasing a state releases all its slots and keeps the counts of every other edge right |
| `Ownership.Solver.Activate` | solver/jobs.go:636-660 | a state becomes active and everything else stays |
| `Ownership.ReleasedExactlyOnce` | solver/edge.go:125-147 | in every valid state an edge has been released once if it is owned or no slot resolves to it, and not at all otherwise, and the index names no released edge |
| `Ownership.Run` | solver/jobs.go:219-269 | after any order of loaded vertexes, edges asked for, lookups and merges of any edges with any keys in either direction, and released states, every edge has been released exactly that often, until a released edge is stored in the index |
| `Ownership.IsDepExactly` | solver/edge.go:1039-1053 | the check for dependencies finds a vertex exactly if following inputs leads to one with its digest |
| `Ownership.MergesCanCycle` | solver/edge.go:1039-1053 | a run: X is f on y1, x1 is f on z, Y is g on x1 and y1 is g on w; with a key shared by y1 and z and one by x1 and w, x1 is found and merged into X and y1 into Y, though neither depends on the other, and then two edges are each other's inputs |
| `MemoryStore.Store.AddResult` | solver/memorycachestorage.go:104-120 | the key holds the result, and results and their key lists stay exact inverses |
| `MemoryStore.Store.AddLink` | solver/memorycachestorage.go:188-210 | both keys exist and links and backlinks stay exact inverses |
| `MemoryStore.Store.EmptyBranchWithParents` | solver/memorycachestorage.go:167-186 | terminates on any link graph; only keys without results whose links all go to removed keys are removed |
| `MemoryStore.Store.Release` | solver/memorycachestorage.go:140-186 | exactly the keys stay that hold another result, held nothing before, or link to a key that stays; they lose the result and links to removed keys and nothing else; no key becomes empty |
| `MemoryStore.Store.WalkBacklinks` | solver/memorycachestorage.go:246-280 | finds every link to a key and nothing else |
| `MemoryStore.Store.WalkLinks` | solver/memorycachestorage.go:212-231 | finds exactly the targets of a link |
| `MemoryStore.LinkedExtends` | solver/memorycachestorage.go:188-210 | adding a link adds itself and loses nothing |
| `CacheManager.Manager.GetID` | solver/cachemanager.go:368-384 | identifiers never change; a key with inputs gets a match if there is one and otherwise one that nothing else has |
| `CacheManager.Manager.GetIDFromDeps` | solver/cachemanager.go:410-447 | mints an identifier exactly if the match set is empty |
| `CacheManager.SameMatches` | solver/cachemanager.go:410-447 | the storage and the edge index define matches in the same way |
| `CacheManager.Manager.EnsurePersistentKey` | solver/cachemanager.go:386-408 | afterwards the key is linked from every alternative of every input; all identifiers, keys and results are kept |
| `CacheManager.Manager.PersistAlternative` | solver/cachemanager.go:396-404 | the alternative leads to the key, and is itself linked from all of its own unless it led to the key before |
| `CacheManager.Manager.Save` | solver/cachemanager.go:307-349 | the key is linked from every alternative of every input and holds the result with its time; no other result, key or link is lost |
| `CacheManager.Manager.Query` | solver/cachemanager.go:65-141 | finds exactly the keys linked from some given key, and afterwards every given key alone leads to exactly those; nothing changes if they already did |
| `CacheManager.Manager.Records` | solver/cachemanager.go:143-175 | returns exactly the results that still exist and releases the others |
| `CacheManager.Manager.SaveThenQuery` | solver/cachemanager.go:65-175 | after saving, any single alternative of any input leads to the key with its result among the records |
| `CacheManager.Manager.ResolveShared` | solver/cachemanager.go:368-447 | a new key that shares an alternative of each input with a saved one never gets an identifier of its own |
| `CacheManager.Manager.QueryTwice` | solver/cachemanager.go:65-141 | asking again with all keys or any one of them gives the same answer |
| `JobStates.Solver.LoadOne` | solver/jobs.go:610-722 | the states after one vertex has been loaded, including the digest without cache, the recorded child and the inactive parent |
| `JobStates.LoadKeeps` | solver/jobs.go:610-722 | parents and children stay tied exactly if the load is for a job, or the parent is recorded already, or the parent is active and the vertex is not found under the digest without cache |
| `JobStates.HiddenChild` | solver/jobs.go:610-719 | an input on which they do not: the parent lists a child that is not active |
| `JobStates.Solver.Load` | solver/jobs.go:595-728 | a graph of vertexes is loaded once each, every one is listed for its job or parent, and all invariants are kept |
| `JobStates.Solver.StartBuild` | solver/jobs.go:850-861 | a build of a discarded job is refused |
| `JobStates.Solver.BuildDone` | solver/jobs.go:931-939 | the last build of a discarded job makes its teardown due |
| `JobStates.Solver.Discard` | solver/jobs.go:944-953 | teardown is due exactly if no build is running |
| `JobStates.Solver.DeleteIfUnreferenced` | solver/jobs.go:812-848 | never meets a missing child, terminates on any graph, and releases each removed state once |
| `JobStates.Solver.TearDown` | solver/jobs.go:955-994 | no build of the job is running; exactly the states stay that have another job or a parent that stays, and they lose the job and the parents that are gone |
| `JobStates.Run` | solver/jobs.go:595-994 | after every history every state has a job that is not torn down or an active parent that lists it, torn-down jobs are listed nowhere and run no build, and every removed state was released exactly once |
| `SharedResults.SharedResult.MakeClone` | solver/result.go:23-42 | a clone splits the handle, which starts again even if it has been released; nothing is released |
| `SharedResults.SharedResult.Release` | solver/result.go:32-36 | one release of the handle is passed on exactly as far as both halves of each split are released |
| `SharedResults.SharedResult.ReleaseClone` | solver/result.go:49-59 | a second release of a clone changes nothing below it |
| `SharedResults.ReleasedExactly` | solver/result.go:14-59 | the underlying result has been released as often as the handle was before the first clone, and once more exactly if the handle was released after some clone was made and all clones up to that one were; with no release before a clone, once exactly if the handle and all clones have been released |
| `SharedResults.NeverCloned` | solver/result.go:32-36 | a handle that was never cloned passes a double release on |
| `SharedResults.ReleasedThenCloned` | solver/result.go:23-42 | a handle that is released, cloned and released with its clone releases the result twice |
| `DiskUsage.Fire` | cache/manager.go:1503-1513 | a record without references lets go of its parents once, twice per parent for a double reference, and counts stay exact |
| `DiskUsage.Rescan` | cache/manager.go:1501-1515 | the worklist terminates and leaves references exactly on records referenced from outside or by a record that has some, in any order |
| `DiskUsage.InUseExactly` | cache/manager.go:1501-1528 | what is left is above zero exactly for records with an external reference or an in-use descendant |
| `DiskUsage.MarkAllParentsShared` | cache/manager.go:1401-1412 | marks exactly the given records and all their ancestors |
| `DiskUsage.MarkShared` | cache/manager.go:1392-1423 | marks exactly the ancestor closure of the records that exist outside, although marked records are skipped |
| `DiskUsage.Report` | cache/manager.go:1440-1535 | reports in use and shared exactly by these two definitions |
| `CachePrune.Cache.Get` | cache/manager.go:425-488 | gives the record, its equal immutable record or a new equal one; refuses exactly dead records and mutable ones in use; never touches a marked record or its equal |
| `CachePrune.Cache.GetMutable` | cache/manager.go:742-773 | refused exactly for a record that is missing, dead, not mutable or in use, itself or as its equal immutable record; gives the only reference and gives up the equal immutable record; the whole new state; never touches a marked record or its equal |
| `CachePrune.DeadTogether` | cache/refs.go:248-250 | of two equal records both count as dead as soon as one is |
| `CachePrune.Cache.Commit` | cache/refs.go:1632-1675 | refused exactly for a record that is not mutable or not in use; the new immutable record is the equal of the mutable one, holds the same parents and has one reference; equal records still name each other if and only if no immutable record counted as the equal before |
| `CachePrune.CommittedTwice` | cache/refs.go:1632-1675 | an input on which they do not: after a second commit the mutable record can be pruned while the first immutable record is in use and needs it |
| `CachePrune.Cache.ReleaseRef` | cache/refs.go:1528-1558 | drops the reference; the last one to an immutable record also gives up the mutable record it was committed from; a mutable record that is not kept goes with the record it names as its equal, unless that is kept; marked records and their equals stay as they are if and only if none is named like that |
| `CachePrune.FinalizedThenReleased` | cache/refs.go:1732-1763 | a run: after a record is finalized, so that it has no equal any more, the holder of the mutable record releases it, and the immutable record goes though it is in use |
| `CachePrune.GiveKeeps` | cache/refs.go:1732-1763 | giving up a mutable record keeps equal records paired and all marked records as they are |
| `CachePrune.Cache.Finalize` | cache/refs.go:1566-1626 | the equal mutable record is dead and no longer named |
| `CachePrune.Cache.MarkVictims` | cache/manager.go:1182-1300 | marks only records that nobody references, one if space is to be kept and at most a batch otherwise, and some if there is any |
| `CachePrune.Cache.RemoveMarked` | cache/manager.go:1321-1378 | at removal nobody references the record or its equal immutable one, and both are gone |
| `CachePrune.Take` | cache/manager.go:425-773 | whatever step anyone takes, including removal on release, no marked record and no equal of one gains a reference; the only steps that break the invariants are a second commit of a record and the release of one that names a marked record |
| `CachePrune.MarkThenRemove` | cache/manager.go:1282-1378 | after any steps between marking and removing, other than these, the victim and its equal are unreferenced when they go |
| `CachePrune.CalculateKeepBytes` | cache/manager.go:1155-1180 | as much as the limits allow, and at least the reserved space: every larger amount exceeds the space allowed, or leaves less free than asked for, or exceeds what is there if only free space is asked for; without limits the reserved space, and nothing without options |
| `CachePrune.Prune` | cache/manager.go:1101-1300 | terminates; what is left is accounted for exactly; at least keepBytes minus the last victim is left; it stops only below keepBytes or with nothing prunable |
| `Layers.ChainElement` | cache/refs.go:554-573 | a layer chain holds no merge and no diff that is exported as its upper |
| `Layers.Manager.MergeRefs` | cache/manager.go:775-827 | the layer chain of a merge is the concatenation of the inputs' chains, and no merge has a merge as parent |
| `Layers.Manager.CreateMergeRef` | cache/manager.go:829-904 | a merge of nothing is nothing, of one thing that thing, else a new record |
| `Layers.Manager.DiffRefs` | cache/manager.go:906-1005 | with lower an ancestor more than one layer down, the chain of the difference is upper's chain without lower's part; otherwise a new diff |
| `Layers.DiffOfOneLayer` | cache/refs.go:578-591 | one layer on top of lower needs no merge: its diff stands for that layer |
| `Layers.Digests.LayerDigestChain` | cache/refs.go:596-634 | in every reachable state the memoised chain equals the blobs of the layers in order if every layer has one, which is memoised then, and is nothing otherwise |
| `Layers.Digests.SetBlob` | cache/blobs.go:319-366 | a blob is written once, which keeps every memoised chain right |
| `Layers.Digests.ComputeBlobChain` | cache/blobs.go:48-108 | gives every layer a blob, only layers, and the record has a chain of digests afterwards |
| `Layers.BlobsMeaning` | cache/refs.go:596-634 | the chain exists exactly if all layers have blobs, and lists them in order |
| `SnapshotMerge.ApplyToLower` | snapshot/merge.go:38-50 | applying a diff to its own lower side gives its upper side |
| `SnapshotMerge.ApplyWellFormed` | snapshot/merge.go:38-50 | applying a diff leaves a tree in which everything lies in a directory |
| `SnapshotMerge.HandleChanges` | snapshot/diffapply_linux.go:586-769 | the changes between two trees, with the directories above them, applied one by one in any order in which a directory comes before what lies in it, make what the diff makes path by path |
| `SnapshotMerge.StepMakes` | snapshot/diffapply_linux.go:205-434 | one change, applied to a tree that has all changes so far, leaves every path as the changes up to it ask: removing what is in the way of a file, and merging directories |
| `SnapshotMerge.ApplyByPath` | snapshot/merge.go:38-50 | path by path: what the diff deletes, or what lies below a deletion or a new file, is gone and not in the upper tree; what it changes, and the directories above, are as in the upper tree; everything else is as before, and nothing else is there |
| `SnapshotMerge.AddApart` | snapshot/merge.go:38-50 | a tree added to another one, with no file of one where the other has anything, leaves both |
| `SnapshotMerge.MergedApart` | snapshot/merge.go:38-50 | two snapshots merged from scratch with no file of one where the other has anything are both there, and in either order if they agree on the directories they share |
| `SnapshotMerge.MergeSnapshotter.FindBase` | snapshot/merge.go:103-131 | the base that is found holds exactly what the skipped diffs make from scratch, and it is the longest chain of layers on top of one another |
| `SnapshotMerge.MergeSnapshotter.Merge` | snapshot/merge.go:103-157 | the merged snapshot holds all diffs applied from scratch, for every list of diffs, whether or not a base is skipped; its parent is the longest base exactly where bases are skipped; it fails exactly if a snapshot is missing |
| `ContentHash.NextIsChild` | cache/contenthash/checksum.go:905-928 | after the header or a child the walk goes to the next child, if no directory there holds a name that starts with byte 0xff |
| `ContentHash.SkippedExactly` | cache/contenthash/checksum.go:922-926 | the skip after a directory passes over exactly the keys below it whose first byte there is not 0xff |
| `ContentHash.WalkExactly` | cache/contenthash/checksum.go:905-928 | the walk visits the header and each immediate child exactly once, in key order, if and only if no child directory holds a name that starts with byte 0xff |
| `ContentHash.ProperExactly` | cache/contenthash/checksum.go:888-962 | the digest computed is the one from header and children, all the way down, if and only if no directory below the path holds such a name |
| `ContentHash.WalkGoesAstray` | cache/contenthash/checksum.go:922-926 | an input on which it is not: the walk over the root stops at a file of a subdirectory |
| `ContentHash.ChecksumDir` | cache/contenthash/checksum.go:903-930 | lists exactly the keys of the walk with their digests, which are the header and the children in order exactly without such names |
| `ContentHash.Checksum` | cache/contenthash/checksum.go:888-962 | the digest returned and those stored are the ones computed from scratch, for all names, and the proper one exactly without such names below; a digest that was computed is stored |
| `ContentHash.SameDigest` | cache/contenthash/checksum.go:888-962 | the digest depends only on what lies at the path and below it |
| `ContentHash.DigestTells` | cache/contenthash/checksum.go:888-962 | digests from header and children are equal if and only if the same lies at the path and below it, all the way down |
| `ContentHash.ChecksumTells` | cache/contenthash/checksum.go:888-962 | the same for the digests that are computed, without names that start with byte 0xff in directories below |
| `ContentHash.HeaderLeads` | cache/contenthash/checksum.go:903-930 | the digest of a directory starts with its header, whatever lies below |
| `ContentHash.CacheContext.HandleChange` | cache/contenthash/checksum.go:309-423 | key by key, a directory is put with its header and no digest, a file with its digest, what is deleted is gone, with what was below it when the transaction began, and every other key is as before; digests stay right except above what changed, whatever it is; a proper tree stays proper if and only if nothing below what goes was added in the same transaction and no file replaces a directory with changes |
| `ContentHash.PutThenAsk` | cache/contenthash/checksum.go:370-423 | after a put and a commit the digest of a file is the one that was put, and that of a directory starts with the header that was put, so another header gives another digest |
| `ContentHash.ChangeKeepsExactly` | cache/contenthash/checksum.go:309-423 | the same condition for one change to a tree, in both directions |
| `ContentHash.ChangeStaysLoose` | cache/contenthash/checksum.go:309-423 | also on trees that are not proper, no change makes a digest wrong that does not lie above it |
| `ContentHash.DeleteClosedExactly` | cache/contenthash/checksum.go:313-320 | deleting a directory leaves a proper tree exactly if nothing below it was added since the transaction began |
| `ContentHash.OrphanIsLeft` | cache/contenthash/checksum.go:313-320 | an input on which it does not |
| `ContentHash.AddParentToMap` | cache/contenthash/checksum.go:1245-1255 | adds exactly the directories above the path |
| `ContentHash.CacheContext.CommitActiveTransaction` | cache/contenthash/checksum.go:849-863 | exactly the records on the way to a change are reset; of every transaction every directory digest that is still set equals the one from scratch; the tree is proper and the one with the changes if and only if the transaction as a whole was proper |
| `ContentHash.CommitExactly` | cache/contenthash/checksum.go:849-863 | the same for any tree with changes: proper means that the tree with the changes is, and that everything on the way to a change is a directory |
| `ContentHash.ResetClosedExactly` | cache/contenthash/checksum.go:849-863 | committing leaves a proper tree exactly if everything on the way to a change is a directory |
| `ContentHash.FileBecomesDirectory` | cache/contenthash/checksum.go:849-863 | an input on which it does not: a file changed below a directory that is then replaced by a file leaves a directory without a header |
| `ContentHash.CacheContext.ChecksumOf` | cache/contenthash/checksum.go:807-886 | after any changes the digest of a path is the one from scratch of the current tree, is stored, and is the proper one exactly without names that start with 0xff in directories below |
| `ContentHash.Run` | cache/contenthash/checksum.go:309-423 | after any stream of changes and checksums, once committed, every directory digest that is set is the one from scratch; as long as each transaction as a whole was proper when it ended, it is the proper one exactly without such names below |
| `ContentHash.ConversionRoundTrip` | cache/contenthash/checksum.go:1277-1283 | paths and keys convert back exactly without zero bytes and without slashes |

## Left out

- Scheduler.Scheduler.GetEdge: answers with any edge for any output, and may change its answers at any time, so that nothing depends on which edge is whose owner. Which edge a slot of the real edge factory resolves to, and when a merged edge stays among the answers, is proved by Ownership.Solver.GetEdge and Ownership.Solver.TryMerge; the two models are not composed.
- Scheduler.Scheduler.NoDeadlock: assumes that open requests between edges form no cycle, which Scheduler.Scheduler.StuckOnlyInCycle shows to be necessary. That vertex graphs have no cycles and that merges between dependent vertexes are skipped (`isDep`) does not imply it: Ownership.MergesCanCycle shows two merges that close one.
- Scheduler.Scheduler.TryMerge: the edge that is found is any edge, and `isDep` and `hasOwner` are arbitrary answers; what the index finds is proved by Ownership.Solver.LookUp.
- Scheduler.Scheduler.RespondToIncoming: a request cancelled while a dispatch runs is one of a set of builds that is fixed when the dispatch begins.
- Edges.Edge.ProcessDepSlowCacheReq: a slow key for an input without a result (solver/edge.go:716) is not modelled; the second query, which connects definition keys to the slow key (solver/edge.go:723), changes only the storage, where CacheManager.Manager.Query says what it does.
- EdgeIndex.Index.EnforceLinked: requires that the inputs have identifiers, as all its callers make sure.
- JobStates.Solver.Load: assumes an active parent and no vertex hidden under the digest without cache; JobStates.LoadKeeps says exactly what happens otherwise. Which states a merge adds jobs to is arbitrary (`addJobs`), and progress writers, cache sources and metadata are not modelled.
- DiskUsage.Rescan: assumes that a record's count is its external references plus what its children hold, and that parents are not among the duplicates that are ignored.
- CachePrune.Cache.MarkVictims: which of the prunable records comes first (`sortDeleteRecords`), record types, durations and filters are an arbitrary choice.
- CachePrune.Prune: nobody else creates records meanwhile, which is what makes it end; interleavings are the subject of CachePrune.Take.
- ContentHash.CacheContext.HandleChange: the change is to an entry of a directory of the tree. Hard links, symlinks on the way, lazy scanning, wildcards and pattern matching are not modelled.
- ContentHash.Run: ends with the first transaction that is not proper as a whole; ContentHash.CommitExactly says which are.
- SnapshotMerge.MergeSnapshotter.Merge: contents are trees of paths without the root; mounts, leases, hard links, xattrs, times and usage are not modelled. The changes are those of the walk over both trees (SnapshotMerge.HandleChanges); the walk over the upper directory of an overlay is not.
- Layers.Digests.ComputeBlobChain: only the case that creates missing blobs; compression, chain metadata and leases are not modelled.
- CachePrune.Take: records loaded from stored metadata (cache/manager.go:490-585) are not among the steps.
- CachePrune.MarkThenRemove: ranges over the steps of CachePrune.Take, up to one that breaks the invariants.
- Scheduler.Scheduler.CreateOutgoingRequest: where the source reads a missing payload and would stop, the model goes on with the initial state.
- Ownership.Run: ends when a released edge is stored in the index.
- CachePrune.Cache.ReleaseRef: what parents do when a record goes is a step of its own (CachePrune.Cache.Settle).
- Ownership.Solver.TryMerge: an edge that is merged into by `hasOwner` is in use; a released or owned edge only looks for another one to be merged into.
- The nested maps of links are sets of pairs, and the order of listings that come from Go maps is not modelled.
- gRPC, sessions, client and control plumbing, the content store, leases, bolt storage, mounts and overlay appliers.
- Progress, tracing and debug output; the exporter side of cache keys; remote cache import and export.
- Mutual exclusion in the resolver cache, chain identifiers of layers on merge records, LLB builders and source policy.
