# PTRacer: verified model

PTRacer finds data races in task-parallel programs by building, while the program runs, a
tree of ASYNC, FINISH and STEP nodes and checking every memory access against a bounded
history of earlier accesses to the same address. This project models that engine and proves
that it reports exactly the races of the program: for every run of a fork-join program, under
every interleaving of its threads, a violation is on record for an address exactly when two
accesses to it were left unordered by the program, one of them a write, with no lock in common.
What that leaves out, such as accesses of task 0, is listed under "Left out".

The project also models five pieces of the bundled TBB library whose correctness is not evident from
any one function.

The files build on each other:

- `Common.dfy`: notions shared by several components.
- `Dpst.dfy`: what the tree means: ancestors, lowest common ancestors, "runs before", parallel.
- `Schedules.dfy`: parallel in the tree is the same as "either order is possible" in the legal
  interleavings of the tree.
- `LcaHash.dfy`: the lossy cache of tree walks.
- `Capture.dfy`, `TaskGraph.dfy`: the events that build the tree, as functions on a graph value
  and as the object whose methods write node fields, stacks and the pending map one by one.
- `Lockset.dfy`: locksets as 64-bit masks in which a clear bit is a held lock.
- `History.dfy`, `RaceDetector.dfy`: the bounded history and why forgetting loses no race, also
  when a task goes on in an old step after a root task; the object with its three fixed entries
  and overflow list carries out the same step.
- `Ahead.dfy`, `ForkJoin.dfy`, `Program.dfy`: the fork-join program, described without any tree
  (each task carries the set of steps it knows to be finished), run side by side with the
  tracer; the tree is proved to record the program's order and nothing else.
- `Scopes.dfy`: once a task has waited for a scope, nobody works there any more.
- `StackDiscipline.dfy`: the tracer's stacks over whole task bodies.
- `Resuming.dfy`: which tasks go on in a step begun before a root task.
- `EndToEnd.dfy`: the program, the tracer and the detector together.
- `SinglePop.dfy`: the same with the `CaptureReturn` that pops a single node.
- `Replay.dfy`: the task graph and detector objects driven over a whole run.
- `PriorityQueue.dfy`: the batch handler of `concurrent_priority_queue`.
- `Aggregator.dfy`, `AggregatorProgress.dfy`: the lock-free hand-over protocol of `aggregator`, as
  a step machine: what every run keeps, and that every call comes to its end.
- `ThreadLocals.dfy`, `ThreadLocalsProgress.dfy`: the growing probe tables of
  `enumerable_thread_specific`, as a step machine: what every run keeps, and that a lookup is wait-free.
- `LruCache.dfy`: the reference-counted `concurrent_lru_cache`.
- `BucketChain.dfy`, `HashTable.dfy`, `HashMap.dfy`: the lazily split `concurrent_hash_map`.

Two variants of `CaptureReturn` exist. The model follows the one in `spd3-lib`, which also pops
the implicit FINISH. For the one in `tdebug-lib`, which pops a single node, `StackDiscipline`
states when the stack is afterwards as it was before the task started: exactly when the task has
waited for everyone it spawned. It gives a run in which that fails. `SinglePop` shows that the
detector is exact with that variant too when every task waits before it returns, and gives a run in
which one task does not and the detector reports two writes that the program orders.

After `spawn_root_and_wait` the tracer begins no new step, so a task goes on in the step it was
in before, which in the tree precedes everything the root task did. `EndToEnd` says exactly when an
access inverts the order of the tree in this way, gives a run in which it happens, and proves the
detector exact for all runs, these included.

Two things are assumed of the runtime. Waiting, and returning from `spawn_root_and_wait`, take
until everyone spawned since, directly or not, is done. And a task waits only when it has spawned
something, and runs a root task only when it has waited for what it spawned;
`StackDiscipline.WaitBalanced` shows that `CaptureWaitOnly` is right only in the former case.

A history entry pushed onto the overflow list is taken to start with null slots, as the fixed
entries do; `tdebug-lib/src/DR_Detector.cpp:642` declares it without an initializer.

A lockset is a mask beside a stack of locks. A lock taken twice and released once is still on the
stack and no longer in the mask; `Lockset` says exactly when the mask shows the locks held.

A comment in `tbb-lib/include/tbb/enumerable_thread_specific.h:96-98` says that each array is
half the size of its predecessor. The code only makes sizes strictly decrease along the list. The
model follows the code.

Lemmas by induction carry `{:induction false}`; their proofs are the bodies shown.

## Model

| member | source | states |
|---|---|---|
| Dpst.PrecedesIrreflexive | tdebug-lib/src/AFTaskGraph.cpp:116-170 | no node runs before itself |
| Dpst.PrecedesTransitive | tdebug-lib/src/AFTaskGraph.cpp:116-170 | "runs before" is transitive, so it is a strict partial order on steps |
| Dpst.PrecedesAtLca | tdebug-lib/src/AFTaskGraph.cpp:150-164 | the order of two nodes is decided at the two children of their lowest common ancestor: the left one runs first unless it is an ASYNC |
| Dpst.LcaIsLca | tdebug-lib/src/AFTaskGraph.cpp:49-73 | the node where the two walks meet is an ancestor of both and no common ancestor is below it |
| Dpst.LcaSymmetric | tdebug-lib/src/AFTaskGraph.cpp:49-73 | the meeting point does not depend on the order of the arguments |
| Dpst.OutsideSameRelation | tdebug-lib/src/DR_Detector.cpp:586-632 | a step outside a subtree stands in the same relation to every node inside it |
| Dpst.InsideParallelToOne | tdebug-lib/src/DR_Detector.cpp:586-632 | a step under the meeting point of two parallel steps that precedes neither is parallel to one of them |
| Dpst.SameTaskNotParallel | tdebug-lib/src/AFTaskGraph.cpp:172-181 | with connected tasks two steps of one task are never parallel, so the task-id shortcut agrees with the walk |
| Dpst.LcaStable | tdebug-lib/src/AFTaskGraph.cpp:192-345 | growing the tree moves no lowest common ancestor |
| Schedules.ParallelIffEitherOrder | tdebug-lib/src/AFTaskGraph.cpp:116-170 | two steps are parallel exactly when one legal interleaving of the tree runs the first before the second and another the second before the first |
| Schedules.PrecedesIffForced | tdebug-lib/src/AFTaskGraph.cpp:116-170 | one step precedes another exactly when no legal interleaving runs them the other way round |
| LcaHash.HitIsFresh | tdebug-lib/src/lca_hash.cpp:52-121 | a hit of either lookup, through either key, equals a fresh walk of the tree |
| LcaHash.CoherentWhenTreeGrows | tdebug-lib/src/lca_hash.cpp:38-121 | entries stored for a smaller tree stay right when the tree grows |
| LcaHash.CacheAlwaysFresh | tdebug-lib/src/lca_hash.cpp:38-121 | after any mix of growth, queries of both kinds, collisions and overwrites every answer, parallel or common ancestor, is the one a fresh walk gives |
| LcaHash.StoredIsFound | tdebug-lib/src/lca_hash.cpp:38-121 | what has just been stored for a pair is what a lookup of the pair finds, and the other way round there is an answer too |
| LcaHash.FoundUntilEvicted | tdebug-lib/src/lca_hash.cpp:38-121 | a pair queried once is answered from the cache, either way round, over any history until a pair kept in one of its slots is queried |
| LcaHash.LcaTable.UpdateEntry | tdebug-lib/src/lca_hash.cpp:38-50 | overwriting in place and evicting leave exactly the new pair in the slot of its first step, and every other slot as it was; a lookup of the pair then finds it |
| LcaHash.LcaTable.CheckParallel | tdebug-lib/src/lca_hash.cpp:52-90 | answers from the slot of either step, or NA |
| LcaHash.LcaTable.GetLca | tdebug-lib/src/lca_hash.cpp:92-121 | answers from the slot of either step, or nothing |
| Capture.ApplyKeepsGraphOk | tdebug-lib/src/AFTaskGraph.cpp:192-345 | every event keeps the tree well formed (parents below children, depths, gap-free sibling numbers, STEP leaves, current steps, no STEP on a stack) and changes no structural field of an existing node |
| Capture.ApplyKeepsTasksConnected | tdebug-lib/src/AFTaskGraph.cpp:192-345 | with fresh task ids the nodes of one task stay one connected region whose only possible ASYNC is its top |
| Capture.ReachableIsOk | tdebug-lib/src/AFTaskGraph.cpp:192-345 | every tree reached by any interleaving of threads' events is well formed |
| Capture.ApplyKeepsSteps | tdebug-lib/src/AFTaskGraph.cpp:192-345 | after every event each node but the head has had a step begun under it, and its current step is the last of them |
| Capture.SpawnPends | tdebug-lib/src/AFTaskGraph.cpp:249-250 | a task waits to be started under the node of its first spawn: the ASYNC or root FINISH made for it, which later spawns of the same id do not replace |
| TaskGraph.AFTaskGraph.CaptureSpawnOnly | tdebug-lib/src/AFTaskGraph.cpp:192-253 | the field-by-field writes amount to the event: an implicit FINISH if none is open, the ASYNC with its STEP, the spawner's next STEP |
| TaskGraph.AFTaskGraph.CaptureSpawnAndWait | tdebug-lib/src/AFTaskGraph.cpp:268-294 | the writes amount to the root task's FINISH with its STEP |
| TaskGraph.AFTaskGraph.CaptureExecute | tdebug-lib/src/AFTaskGraph.cpp:255-266 | moves a pending task onto the thread's stacks |
| TaskGraph.AFTaskGraph.CaptureReturn | spd3-lib/src/AFTaskGraph.cpp:279-294 | pops the id, the open implicit FINISH if there is one, and the base |
| TaskGraph.AFTaskGraph.CaptureWaitOnly | tdebug-lib/src/AFTaskGraph.cpp:324-345 | pops the FINISH and begins a new STEP under its parent |
| TaskGraph.AFTaskGraph.WalkToMeeting | tdebug-lib/src/AFTaskGraph.cpp:126-148 | the levelling and joint walks terminate and meet at the lowest common ancestor |
| TaskGraph.AFTaskGraph.LCA | tdebug-lib/src/AFTaskGraph.cpp:49-73 | cached or walked, the answer is the lowest common ancestor |
| TaskGraph.AFTaskGraph.Parallel | tdebug-lib/src/AFTaskGraph.cpp:116-170 | cached or walked, the answer is true exactly when the steps are parallel; it is in the cache afterwards, which stays coherent |
| TaskGraph.AFTaskGraph.AreParallel | tdebug-lib/src/AFTaskGraph.cpp:172-186 | with the shortcut, still exactly whether the current step is parallel to the other |
| Lockset.BitTestDecides | tdebug-lib/src/DR_Detector.cpp:528-528 | the test (~a & ~b) == 0 holds exactly when the two locksets share no lock |
| Lockset.AcquireAddsLock | tdebug-lib/src/Lockset_data.cpp:21-25 | and-ing a lock id adds exactly that lock |
| Lockset.ReleaseRemovesLock | tdebug-lib/src/Lockset_data.cpp:27-31 | or-ing the complement removes exactly that lock |
| Lockset.MaskDeterminedByLocks | tdebug-lib/src/DR_Detector.cpp:569-571 | equal masks mean equal locksets |
| Lockset.MaskZeroIffAllHeld | tdebug-lib/src/DR_Detector.cpp:455-458 | a mask is the empty-entry value 0 exactly when all 64 locks are held |
| Lockset.WithinNotZero | tdebug-lib/src/DR_Detector.cpp:455-458 | while at most 63 locks have ids, no mask is the empty-entry value |
| Lockset.IdsInjective | tdebug-lib/src/Lockset_data.cpp:33-44 | two lock addresses never share an id |
| Lockset.LocksetData.AddLockToLockset | tdebug-lib/src/Lockset_data.cpp:21-25 | the mask gains the lock taken, new or already held; a mask that shows exactly the locks on the stack still does; with at most 63 ids it is not 0 |
| Lockset.LocksetData.RemoveLockFromLockset | tdebug-lib/src/Lockset_data.cpp:27-31 | the mask loses the lock taken last; it still shows exactly the locks on the stack if and only if that lock is not held from an earlier time |
| Lockset.TakenTwice | tdebug-lib/src/Lockset_data.cpp:21-31 | a lock taken twice and released once is held and not in the mask |
| Lockset.AdjustLockset | tdebug-lib/src/DR_Detector.cpp:91-97 | the lockset of an access is what was held, plus what was acquired, minus what was released, locks never seen before included; all of them have ids afterwards, old ids are kept, and with at most 63 ids the mask is not 0 |
| History.ResumedSameRelation | tdebug-lib/include/t_debug_task.h:42-46 | a step a task goes on in after a root task is parallel only to steps that are parallel to everything the root task did |
| History.LaterStandsIn | tdebug-lib/src/DR_Detector.cpp:594-599 | a step ordered with a later one may be forgotten in its favour, although one of them may be a step resumed after a root task |
| History.PairStandsIn | tdebug-lib/src/DR_Detector.cpp:586-632 | two parallel steps stand in for every step below their meeting point |
| History.DepthTest | tdebug-lib/src/DR_Detector.cpp:601-605 | comparing the depths of the two meeting points decides whether the new step lies outside |
| History.UpdateStandsIn | tdebug-lib/src/DR_Detector.cpp:586-632 | after the slot replacement, any later step parallel to the new step or to a step in the old slots is parallel to a step in the new slots |
| History.RecordKeepsInvariant | tdebug-lib/src/DR_Detector.cpp:575-703 | recording keeps: any later step parallel to some forgotten reader (writer) of a lockset is parallel to one of its two reader (writer) slots |
| History.CheckComplete | tdebug-lib/src/DR_Detector.cpp:447-573 | if any earlier access conflicts with the new one, the check of the bounded history finds a race |
| History.CheckSound | tdebug-lib/src/DR_Detector.cpp:447-573 | a race found names an earlier access that conflicts with the new one |
| History.DetectorExact | tdebug-lib/src/DR_Detector.cpp:447-704 | for every access sequence in which no step comes after one it precedes, except a step resumed after a root task that is over, a violation is recorded exactly when two accesses conflict, and it names such a pair |
| History.DetectedInTime | tdebug-lib/src/DR_Detector.cpp:447-704 | the violation is there as soon as the later access of a conflicting pair has been processed |
| RaceDetector.DetectorExactWhileGrowing | tdebug-lib/src/DR_Detector.cpp:404-704 | the same when each access is judged with the tree of its own moment |
| RaceDetector.WhereRecorded | tdebug-lib/src/DR_Detector.cpp:450-573 | the two scans find the one entry of the lockset, or show that there is none |
| RaceDetector.RaceDetector.RecordMem | tdebug-lib/src/DR_Detector.cpp:392-706 | the scans, slot updates and insertions on three fixed entries and an overflow list carry out exactly one step of the bounded history, and keep: fixed entries fill left to right, overflow only when all are taken, one entry per lockset; an access with the mask 0 that races with nothing while a fixed entry is unused, and only that, is forgotten |
| Ahead.PrecedesNewNode | tdebug-lib/src/AFTaskGraph.cpp:192-345 | what precedes a freshly added node is what was ahead of its parent |
| Ahead.NewNodePrecedes | tdebug-lib/src/AFTaskGraph.cpp:192-345 | a freshly added node precedes only what its parent precedes |
| ForkJoin.FreshStepKeeps | tdebug-lib/src/AFTaskGraph.cpp:228-236 | a new step's program past is exactly what precedes it in the tree; knowledge, order and scopes of all tasks stay right |
| ForkJoin.OpenFinKeeps | tdebug-lib/src/AFTaskGraph.cpp:210-221 | opening an implicit FINISH changes no task's knowledge |
| ForkJoin.NewTaskKeeps | tdebug-lib/src/AFTaskGraph.cpp:201-209 | a new task knows what its spawner knows and is unordered with every live task, except for one blocked on it |
| ForkJoin.JoinKeeps | tdebug-lib/src/AFTaskGraph.cpp:324-345 | after waiting, a task knows exactly the steps that precede its next one: its own and those of everyone spawned, directly or not, since |
| Program.TracerFollows | tdebug-lib/src/AFTaskGraph.cpp:192-345 | whatever the program may do next, the tracer's event is enabled, and tree, stacks and pending map agree with the program afterwards |
| Program.GuardsAgree | tdebug-lib/include/t_debug_task.h:29-58 | in every such state the guards used beside the tree are those of the program alone: who is blocked, who is done, who has someone to wait for |
| Program.TreeEncodesProgram | tdebug-lib/src/AFTaskGraph.cpp:192-345 | for every run and interleaving, a step precedes another in the tree exactly when the fork-join program orders them, and they are parallel exactly when it does not |
| Program.TreeHasNoOtherSteps | tdebug-lib/src/AFTaskGraph.cpp:192-345 | every STEP of the tree is a step of the program |
| Scopes.DoSeals | tdebug-lib/include/t_debug_task.h:42-58 | once a task has waited for a scope no live task works in it, whatever the program does next, and under a task's base node there is no ASYNC |
| StackDiscipline.ReturnRestoresStacks | spd3-lib/src/AFTaskGraph.cpp:158-314 | over any task body, with nested executions and other threads interleaved, CaptureReturn restores the thread's node stack and id stack to what they were before the matching CaptureExecute |
| StackDiscipline.OnePopBalanced | tdebug-lib/src/AFTaskGraph.cpp:313-322 | over any task body, popping a single node leaves the node stack as it was before the matching CaptureExecute exactly when the task has waited for everyone it spawned |
| StackDiscipline.OnePopFails | tdebug-lib/src/AFTaskGraph.cpp:313-322 | a run in which a task starts, spawns and returns, and popping a single node leaves a node more on the stack than before it started |
| StackDiscipline.WaitBalanced | tdebug-lib/src/AFTaskGraph.cpp:324-345 | after CaptureWaitOnly the task is on a node of its own exactly when it had someone to wait for |
| EndToEnd.SeesCurrentStep | tdebug-lib/src/AFTaskGraph.cpp:40-43 | the node on top of the stack leads to the step the acting task is in, and what the queries require of the stacks holds |
| EndToEnd.ReachedIsRunOk | tdebug-lib/src/AFTaskGraph.cpp:172-186 | in every reached state the condition behind the task-id shortcut holds, the tracer agrees with the program, and scopes that were left are over |
| Resuming.ReachedTracks | tdebug-lib/include/t_debug_task.h:29-58 | in every reached state a task's step is the last under its node exactly when, by the actions of the program alone, it has spawned, waited or started since it last ran a root task |
| EndToEnd.InvertsExactly | tdebug-lib/include/t_debug_task.h:42-46 | the step of an access precedes a step that exists exactly when, by the actions of the program, its task has neither spawned nor waited since it last ran spawn_root_and_wait |
| EndToEnd.InversionHappens | tdebug-lib/include/t_debug_task.h:42-46 | a run in which it does: a root task writes, and then the task that ran it |
| EndToEnd.PrecedesOnlyRoots | tdebug-lib/include/t_debug_task.h:42-46 | the step of an access precedes exactly the steps under the FINISH nodes of root tasks that hang after it under its node, and nobody works there any more |
| EndToEnd.DetectsExactlyTheRaces | tdebug-lib/src/DR_Detector.cpp:404-704 | for every run of program, tracer and detector, a violation is on record exactly when two accesses are unordered by the program, one a write, with no lock in common |
| SinglePop.DetectsWithOnePop | tdebug-lib/src/AFTaskGraph.cpp:313-322 | the same with the CaptureReturn that pops a single node, for programs in which every task waits for those it spawned before it returns |
| SinglePop.WrongReport | tdebug-lib/src/AFTaskGraph.cpp:313-345 | a run with that variant in which a task returns without waiting, a later wait begins its step in the wrong place, and a violation is recorded although the program has no race |
| EndToEnd.ReportsRealRaces | tdebug-lib/src/DR_Detector.cpp:404-704 | a report names two such accesses |
| Replay.Drive | tdebug-lib/src/exec_calls.cpp:17-25 | the objects, called once per happening of a run, go through exactly the states of the run: the graph's fields are the run's and the detector holds what the bounded history says |
| Replay.DetectsRaces | tdebug-lib/src/DR_Detector.cpp:392-706 | driven over any run, the objects have a violation on record for the address exactly when the program has a race among the accesses |
| PriorityQueue.ConcurrentPriorityQueue.Heapify | tbb-lib/include/tbb/concurrent_priority_queue.h:437-450 | the heap grows to all elements, none lost |
| PriorityQueue.ConcurrentPriorityQueue.Reheap | tbb-lib/include/tbb/concurrent_priority_queue.h:455-472 | the root is gone, the last element is in the heap (or in the unheapified part), heap order holds |
| PriorityQueue.ConcurrentPriorityQueue.HandleOperations | tbb-lib/include/tbb/concurrent_priority_queue.h:353-434 | a batch is linearizable: some order of its operations, run on a plain maximum-priority multiset, gives the same statuses, popped values and contents; what came out and what is left are what was there and what was pushed; it ends with heap order, an element of maximum priority first, and mark == size |
| PriorityQueue.TurnByTurn | tbb-lib/include/tbb/concurrent_priority_queue.h:353-434 | at its turn in that order a pop takes an element whose priority none in the contents exceeds, and finds nothing only when they are empty; a push fails only when storing throws |
| PriorityQueue.Balanced | tbb-lib/include/tbb/concurrent_priority_queue.h:353-434 | over a batch no element is lost, and none comes out that was not in or pushed |
| PriorityQueue.TailPopped | tbb-lib/include/tbb/concurrent_priority_queue.h:371-379 | popping an unheapified element is pushing and popping it at once |
| PriorityQueue.TopPopped | tbb-lib/include/tbb/concurrent_priority_queue.h:423-427 | popping the top is a pop of the maximum, followed by the push of the element that fills the hole |
| PriorityQueue.BatchEnds | tbb-lib/include/tbb/concurrent_priority_queue.h:430-432 | the pushes held back happen in the end, which accounts for every operation exactly once |
| Aggregator.SwapKeeps | tbb-lib/include/tbb/aggregator.h:118-122 | the compare-and-swap is right although the address may have been reused in between |
| Aggregator.SetBusyKeeps | tbb-lib/include/tbb/aggregator.h:161-165 | raising handler_busy by a plain store keeps the protocol's invariant |
| Aggregator.OneLeader | tbb-lib/include/tbb/aggregator.h:108-138 | in every interleaving at most one thread waits on handler_busy |
| Aggregator.OneHandler | tbb-lib/include/tbb/aggregator.h:149-177 | at most one thread runs the handler, and the plain store never finds the flag up |
| Aggregator.FlagsMeanThreads | tbb-lib/include/tbb/aggregator.h:108-177 | the mailbox is occupied exactly while a thread leads; handler_busy is up exactly while one handles |
| Aggregator.AppliedExactlyOnce | tbb-lib/include/tbb/aggregator.h:73-89 | each submitted operation is applied exactly once, and before its submitter returns |
| Aggregator.NoEarlyReturn | tbb-lib/include/tbb/aggregator.h:130-134 | no submitter passes its wait before its own operation is applied |
| Aggregator.NeverStuck | tbb-lib/include/tbb/aggregator.h:108-177 | while a thread is inside, some thread inside can move |
| AggregatorProgress.BoundedWork | tbb-lib/include/tbb/aggregator.h:108-177 | whatever the interleaving, from any reached state on, threads inside take at most (2n + 1) * 12n + 2n steps that change anything, for n threads, unless new calls begin |
| AggregatorProgress.AllReturn | tbb-lib/include/tbb/aggregator.h:108-177 | from every reached state all calls under way can be brought to their end without new ones, every operation submitted having been applied |
| AggregatorProgress.CallReturns | tbb-lib/include/tbb/aggregator.h:108-138 | a thread that calls execute, wherever the others are, submits one operation and can get out again with that one applied |
| AggregatorProgress.SwapLosesOnlyToChange | tbb-lib/include/tbb/aggregator.h:118-122 | a swap fails exactly when the mailbox is no longer what the thread read, whatever others did in between; else its operation is in the mailbox, and it leads exactly when the mailbox was empty |
| BucketChain.OnWayOfHash | tbb-lib/include/tbb/concurrent_hash_map.h:648-664 | a bucket is on a hash's chain of parents exactly when the bucket's full mask selects it |
| BucketChain.MaskedIsRemainder | tbb-lib/include/tbb/concurrent_hash_map.h:663-664 | the bits of a hash that a mask keeps are its remainder by the table size |
| HashTable.SplitKeeps | tbb-lib/include/tbb/concurrent_hash_map.h:648-678 | splitting a bucket off its parent changes nothing about the map |
| HashTable.GrowthKeeps | tbb-lib/include/tbb/concurrent_hash_map.h:200-223 | appending a segment of waiting buckets changes nothing about the map |
| HashMap.ConcurrentHashMap.Reserve | tbb-lib/include/tbb/concurrent_hash_map.h:293-298 | there are at least the buckets asked for and no segment beyond the one that reaches that; old buckets stay, new ones are rehashed ones if the table is empty and else wait; the map is unchanged |
| HashMap.ConcurrentHashMap.InsertNewNode | tbb-lib/include/tbb/concurrent_hash_map.h:277-290 | the map gains the item; the next segment, up to 256 buckets first and doubling the table later, is added exactly when the count reaches the mask |
| HashTable.InHomeOrNowhere | tbb-lib/include/tbb/concurrent_hash_map.h:616-623 | a key is in the map exactly when its nearest rehashed bucket has it |
| HashTable.RehashCovers | tbb-lib/include/tbb/concurrent_hash_map.h:293-298 | scanning the last segment reaches every waiting bucket after a table with items has grown; after one without items has grown, exactly when no bucket was waiting |
| HashTable.RehashCoversAsIs | tbb-lib/include/tbb/concurrent_hash_map.h:1212-1241 | when the table does not grow, exactly when no bucket was waiting or the last segment was added to a table with items |
| HashTable.RehashPassesOver | tbb-lib/include/tbb/concurrent_hash_map.h:293-298 | the table that a new one becomes by inserting an item of hash 0, adding the segment due and erasing the item again, whose waiting buckets `rehash(512)` passes over |
| HashMap.ConcurrentHashMap.RehashBucket | tbb-lib/include/tbb/concurrent_hash_map.h:648-678 | recursive splitting terminates and leaves the bucket rehashed and the map unchanged |
| HashTable.ChangesKeep | tbb-lib/include/tbb/concurrent_hash_map.h:628-678 | whatever splits, growth, insertions and erasures others make without the lock of a bucket, the table represents a map, only evolves, and the bucket keeps its items and stays the home of what it was the home of |
| HashMap.ConcurrentHashMap.Lookup | tbb-lib/include/tbb/concurrent_hash_map.h:1038-1113 | with others making such changes before, between and within its lock scopes, and restarts after a mask race or a long wait for an item, find and insert act on the map as it is at one moment; alone, on the map as it was, and with fewer items than buckets if it began so; the table only evolves |
| HashMap.ConcurrentHashMap.Erase | tbb-lib/include/tbb/concurrent_hash_map.h:1166-1201 | erase likewise, also when the upgrade to a writer lock gives the bucket up for a moment |
| HashMap.ConcurrentHashMap.EqualRange | tbb-lib/include/tbb/concurrent_hash_map.h:1118-1133 | without splitting anything, finds exactly what a lookup would |
| HashMap.ConcurrentHashMap.CheckRehashingCollision | tbb-lib/include/tbb/concurrent_hash_map.h:255-274 | after the mask grew, asks for a restart exactly when the home of the key is no longer where the climb from the bucket searched ends, so without one the failed search was conclusive; the bit search terminates |
| HashMap.ConcurrentHashMap.MarkRehashedLevels | tbb-lib/include/tbb/concurrent_hash_map.h:235-243 | marks exactly the waiting buckets whose chain of parents ends in this one |
| HashMap.ConcurrentHashMap.Rehash | tbb-lib/include/tbb/concurrent_hash_map.h:1212-1241 | after growing to at least the size asked for and by no segment more, leaves no bucket waiting exactly when every waiting bucket shares its home with one of the last segment, and then every item is in bucket hash & mask; the map is unchanged |
| ThreadLocals.OwnFirstPointer | tbb-lib/include/tbb/enumerable_thread_specific.h:164-234 | in every interleaving each lookup returns the first pointer its thread created, which is not null, and no two threads share one |
| ThreadLocals.CreatesOnce | tbb-lib/include/tbb/enumerable_thread_specific.h:190-194 | a thread comes to create an object only if it never has, across growth and lazy migration |
| ThreadLocals.RootsGrow | tbb-lib/include/tbb/enumerable_thread_specific.h:195-216 | every change of the root array makes it larger |
| ThreadLocals.AlwaysHalfEmpty | tbb-lib/include/tbb/enumerable_thread_specific.h:190-192 | every array is at most half full, and a probing thread has passed at most half of an array's slots |
| ThreadLocals.TicketsFit | tbb-lib/include/tbb/enumerable_thread_specific.h:195-202 | the counts drawn by different threads are distinct, and each is at most half the size of the array its thread inserts into and of any array its key sits in |
| ThreadLocals.EmptyMeansAbsent | tbb-lib/include/tbb/enumerable_thread_specific.h:172-189 | the first empty slot on a key's probe sequence shows that the array does not hold the key |
| ThreadLocals.StartIsUpperBits | tbb-lib/include/tbb/enumerable_thread_specific.h:71-73 | probing starts at the slot given by the upper bits of a 64-bit hash |
| ThreadLocalsProgress.LoopsAdvance | tbb-lib/include/tbb/enumerable_thread_specific.h:172-232 | a step of the search loop ends it, goes one slot further in the same array, or on to the next, smaller array; the loop that looks for an empty slot goes one slot further or claims |
| ThreadLocalsProgress.ArraysSmall | tbb-lib/include/tbb/enumerable_thread_specific.h:195-202 | no array ever has more than four slots for each thread |
| ThreadLocalsProgress.LookupReturns | tbb-lib/include/tbb/enumerable_thread_specific.h:164-234 | whatever the other threads do, a lookup returns after at most 20n + 10 of its own steps, for n threads, with the thread's first pointer, which is then stored in an array no smaller than the root was at the start |
| ThreadLocalsProgress.EveryLookupReturns | tbb-lib/include/tbb/enumerable_thread_specific.h:164-234 | the same bound from wherever in a lookup a thread is |
| LruCache.ConcurrentLruCache.RetrieveSerial | tbb-lib/include/tbb/concurrent_lru_cache.h:188-205 | a new handle; the item leaves the history if it was there, and is created if it was absent; counts equal outstanding handles and an item is in the history, once, exactly when nobody holds it |
| LruCache.ConcurrentLruCache.SignalEndOfUsageSerial | tbb-lib/include/tbb/concurrent_lru_cache.h:207-228 | with its last handle an item becomes the most recent of the history; a full history loses the item released least recently and only that; the list never exceeds the limit |
| LruCache.Evicted | tbb-lib/include/tbb/concurrent_lru_cache.h:218-223 | the item at the back of the list is unreferenced and was released before all others in it |

## Left out

- Program.GuardsAgree: programs that wait with nothing spawned are not runs of the model, since CaptureWaitOnly would pop the task's base node (StackDiscipline.WaitBalanced); nor are programs that run a root task while spawned tasks are outstanding, after which the next spawn opens a second FINISH inside the first (`tdebug-lib/src/AFTaskGraph.cpp:210-221`) that one wait does not close
- HashMap.ConcurrentHashMap.Lookup: that locks exclude is assumed: others change the table only in ways ChangesKeep covers; the locks of single items, which guard their values, are not modelled
- PriorityQueue.ConcurrentPriorityQueue.HandleOperations: takes the batch as a list and returns outcomes instead of writing status words that release the submitters
- LruCache.ConcurrentLruCache.SignalEndOfUsageSerial: takes the history limit to be at least 1, since with 0 the source takes the back of an empty list; the cached values and the aggregator in front of the cache are not part of it
- ThreadLocals.OwnFirstPointer: covers `table_lookup` only, not clearing or copying the tables, and not the `exists` flag it also returns
- RaceDetector.RaceDetector.RecordMem: after an access with the mask 0 was forgotten, an unused entry holds its step, and what later accesses make of that is not followed; runs in EndToEnd have nonzero masks, as all masks are while at most 63 locks have ids (Lockset.AdjustLockset)
- Lockset.LockRegistry.GetLockId: does not model the 65th lock, at which the source shifts out of its word
- The capacity of the node array, mmap and shadow-space addressing (addresses that agree in their low 32 bits share an entry in the source), report and trace files
- Concurrent access to the cache of tree walks, which the source does not lock: queries are sequential steps here
- Accesses by task 0, which the source ignores
- The read-slot rule of `spd3-lib/src/DR_Detector.cpp`, which fills the second slot without a test, so the coverage theorem does not apply to it
- CaptureWait and rightmostNode, which nothing calls
- Memory fences, allocators, iterators and per-item locks of the TBB headers; keys carry a natural-number hash, priorities are integers
- The rest of TBB and the offline solver scripts: thin wrappers, platform code, or calls into tools outside the repository
