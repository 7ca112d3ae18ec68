# Verified model of the qoala node runtime

qoala runs programs of a quantum network on simulated nodes. A program is a list of blocks; the
runtime turns blocks into graphs of tasks, splits each graph over a classical core (CPU) and a
quantum core (QPU), and lets two earliest-deadline-first schedulers run them. Tasks ask a memory
manager for qubits, an entanglement distributor for pairs and a network schedule for time bins,
and exchange arguments and results with the host through shared memory. Programs are printed and
parsed as text.

This project models that runtime in Dafny and proves what it guarantees in every run, for every
program and under every interleaving of the two cores. Where a promise does not hold, the exact
condition under which it does is proved instead, with an input on which it fails.

`dafny verify dfyconfig.toml` checks everything.

## How it is organised

| Part | Files |
|---|---|
| Task graphs, their projection onto one core, linear graphs | `Tasks`, `Reachability`, `Projection`, `GraphOps`, `TaskGraphs`, `Linearizing` |
| The two cores as a transition system | `TwoCore`, `TwoCoreSafety`, `TwoCoreTheorems`, `Deadlines` |
| The processor schedulers | `NetworkSchedule`, `EdfStatus`, `EdfLaws`, `EdfSchedulers`, `EdfOrder`, `SchedulerRuns`, `WaitingTasks` |
| Graphs of blocks and programs | `Programs`, `BlockTheorems`, `ProgramTheorems`, `ProgramDeadlines`, `SharedPointers`, `Builders`, `BuilderLemmas`, `GraphBuilders` |
| Block-at-a-time scheduling | `NodeRuns`, `NodeJumps`, `NodeOrder`, `NodeProjection`, `NodeScheduler` |
| Entanglement requests | `EntDist`, `EntDistTheorems`, `EntDistServing` |
| Qubits | `QubitMemory`, `MemoryManagers`, `PairIds` |
| Calls through shared memory | `SharedMemories`, `HostCalls`, `HostCallTheorems` |
| Program text | `Strings`, `HostLang`, `HostParser`, `HostRoundTrip`, `HostGrammar`, `BlockGrammar`, `ParserClasses`, `Metadata`, `MetaGrammar` |

Objects that the source updates in place (`TaskGraph`, the schedulers, `EntDist`, `MemoryManager`,
`SharedMemory`, the parsers and builders) are classes; their methods are proved equal to functions
on values, and the theorems are about those functions. Time is an integer. Randomness, and the
order in which a set is traversed, are left open. Exceptions and failed assertions are modelled as
`None`, an error value or a flag.

## Model

| member | source | states |
|---|---|---|
| Projection.DoubleCrossIsDetour | qoala/runtime/task.py:550-588 | The double-cross predecessors of a task are exactly the tasks of its processor that reach it by a path whose interior is non-empty and wholly on the other processor. |
| Projection.ProjectionPreservesReachability | qoala/runtime/task.py:590-638 | Between two tasks of one processor, the projection has exactly the ancestors of the full graph, for every DAG. |
| Projection.PartialIsDag | qoala/runtime/task.py:590-638 | The projection of a DAG is closed and acyclic again. |
| TaskGraphs.TaskGraph.PartialGraph | qoala/runtime/task.py:590-638 | The loops that split predecessors, add detours and fill in successors compute the projection; each task keeps its deadline, its start time and exactly the relative deadlines whose source runs on the same processor, with their values. |
| TaskGraphs.TaskGraph.RemoveTask | qoala/runtime/task.py:524-537 | When its assertions hold, the task is gone, successors lose the precedence, and deadlines relative to the task become absolute; nothing else changes. |
| TaskGraphs.TaskGraph.UpdateSuccessors | qoala/runtime/task.py:427-433 | Every task gains exactly the tasks that name it as a predecessor. |
| TaskGraphs.TaskGraph.DecreaseDeadlines | qoala/runtime/task.py:539-542 | Every deadline drops by the amount, and nothing else changes. |
| TaskGraphs.TaskGraph.Linearize | qoala/runtime/task.py:505-522 | Returns the chain from the only root along only successors if there is one, and raises only if there is none. |
| Linearizing.LinearIffSinglePath | qoala/runtime/task.py:505-522 | On an acyclic graph with consistent successors, that chain exists exactly if the graph is a single path without external predecessors at its start, and then it is the path. |
| Linearizing.MergeLinear | qoala/runtime/task.py:685-702 | Succeeds exactly if there is at most one graph or every graph is a non-empty linear one, and ties each graph to the end of the one before. |
| Linearizing.MergedPathsAreOnePath | qoala/runtime/task.py:685-702 | Merging paths without common tasks gives a closed acyclic graph that linearises to the paths one after the other. |
| TwoCoreTheorems.SplitGraphsRefineFullGraph | qoala/sim/scheduler.py:777-824 | In every reachable state of the two cores, the roots a core sees after updating its external predecessors are exactly its unfinished tasks whose predecessors in the full graph have all finished, in upload order. |
| TwoCoreTheorems.NoAssertionFails | qoala/runtime/task.py:524-537 | In no run does `remove_task` fail: the task is a root on its core, and each of its successors is there and has it as a predecessor. |
| TwoCoreTheorems.FailedTaskMayRetry | qoala/sim/scheduler.py:800-824 | A task that failed stays queued and unfinished, changes nothing else, and may start again at once. |
| TwoCoreTheorems.StartsAfterItsAncestors | qoala/sim/scheduler.py:791-824 | When a task starts, all its ancestors have finished on either core, and it has not run before. |
| TwoCoreTheorems.FinishOrderIsTopological | qoala/sim/scheduler.py:810-824 | The order in which tasks finish over both cores repeats none and never puts a task before an ancestor. |
| TwoCoreTheorems.DeadlockFree | qoala/sim/scheduler.py:777-824 | While a task is unfinished, one of the cores is running or has a ready task. |
| TwoCoreTheorems.WorkIsBounded | qoala/sim/scheduler.py:791-824 | When tasks succeed, no run has more than one start and one finish per task, however long it polls. |
| TwoCoreTheorems.MaximalRunFinishesEveryTaskOnce | qoala/sim/scheduler.py:791-824 | A run that cannot go on has finished every task of the uploaded graph exactly once, after exactly one start and one finish each. |
| Deadlines.DeadlineLaw | qoala/sim/scheduler.py:810-816 | In every run: the deadline of a queued task is that of the uploaded task, or the relative deadline of its last finished source on the same processor, less the durations of the tasks that finished on its core since; the sources that have not finished are still there, with the uploaded values, and those of the other processor never count. |
| EdfOrder.EdfFinishesByDeadline | qoala/sim/scheduler.py:913-941 | A core with independent plain tasks that all have deadlines finishes them in order of initial deadline, ties in upload order, in every run. |
| EdfSchedulers.EdfScheduler.UpdateExternalPredecessors | qoala/sim/scheduler.py:777-789 | The loop over the roots drops exactly the external predecessors that the other core has finished, from tasks without internal predecessors, and changes nothing else. |
| EdfSchedulers.EdfScheduler.CompleteTask | qoala/sim/scheduler.py:810-820 | After a success the deadlines are lowered, the task is removed and recorded as finished. |
| EdfSchedulers.EdfScheduler.UpdateStatusCpu | qoala/sim/scheduler.py:869-959 | Starts a task exactly if one has no predecessors, its message if it is a receive task, and no later start time, and then the preferred one; otherwise names a missing message, a later start time or the other core exactly if a task waits for it. |
| EdfSchedulers.EdfScheduler.UpdateStatusQpu | qoala/sim/scheduler.py:1114-1236 | Generates a pair exactly if a pair task has its resources and it is time for its bin; else starts another task with its resources, the preferred one; else names missing resources, a later bin or the other core exactly if a task waits for it. |
| EdfStatus.CpuStatusIsComplete | qoala/sim/scheduler.py:878-959 | When nothing is ready, the CPU status names exactly the causes that block tasks without internal predecessors, and the least future start time. |
| EdfStatus.QpuStatusIsComplete | qoala/sim/scheduler.py:1121-1236 | The same for the QPU status, with the least wait for a time bin. |
| EdfLaws.CpuStartsIffSomeMay | qoala/sim/scheduler.py:878-941 | The CPU scheduler starts a task exactly if one may start: the one with the least deadline, the first of those in the graph, and without deadlines the first. |
| EdfLaws.CpuWaitsIff | qoala/sim/scheduler.py:943-959 | When none may start, the status is about a missing message, a later start time or the other core exactly if a task waits for it, and gives the least start time. |
| EdfLaws.QpuPairsIffSomeMay | qoala/sim/scheduler.py:1159-1190 | The QPU scheduler generates a pair exactly if a pair task has no predecessors, its resources, and its bin now, and takes the first of those. |
| EdfLaws.QpuStartsIffSomeMay | qoala/sim/scheduler.py:1191-1217 | Otherwise it starts a task that is no pair task exactly if one has no predecessors and its resources, and takes the preferred one. |
| EdfLaws.QpuWaitsIff | qoala/sim/scheduler.py:1219-1236 | Otherwise the status is about missing resources, a later bin or the other core exactly if a task waits for it, and gives the least wait. |
| EdfLaws.WaitIsUntilBin | qoala/sim/scheduler.py:1159-1172 | The wait of a pair task is the least time until its bin in the calendar, so zero exactly when the bin starts now, and zero without a calendar. |
| WaitingTasks.NoReceiveWithoutMessage | qoala/sim/scheduler.py:888-911 | In no run does the task of an uploaded receive block start while its message is missing. |
| WaitingTasks.NodeNeverReceivesEarly | qoala/sim/scheduler.py:888-911 | Nor in any run of the node, with any programs and jumps. |
| WaitingTasks.NoPairOutsideItsBin | qoala/sim/scheduler.py:1121-1190 | In no run is a task picked on the QPU without its resources, or a pair generated at a time at which its bin does not start. |
| EdfStatus.CpuNeverRaises | qoala/sim/scheduler.py:943-959 | On a closed acyclic graph the CPU scheduler never reaches its RuntimeError. |
| EdfStatus.QpuNeverRaises | qoala/sim/scheduler.py:1208-1236 | Nor does the QPU scheduler, if no wait for a bin is negative. |
| EdfStatus.LateScheduleNeverRaises | qoala/sim/scheduler.py:1114-1236 | No wait is negative, and so it does not raise, if the schedule starts late enough for the bins of the available entanglement tasks. |
| EdfStatus.EarlyScheduleRaises | qoala/sim/scheduler.py:1160-1236 | Otherwise there is a time at which every outcome for one available entanglement task in that bin raises, and there is such an outcome. |
| EdfStatus.WaitingNeverFailsIffLateEnough | qoala/sim/scheduler.py:1160-1236 | Waiting for a pair in a bin never fails exactly if the schedule starts late enough for the bin. |
| SchedulerRuns.PolledIsDag | qoala/sim/scheduler.py:777-789 | In every reachable state, what is queued on a core is a closed acyclic graph. |
| SchedulerRuns.CpuNeverRaisesInRuns | qoala/sim/scheduler.py:869-959 | So in no run does the CPU scheduler raise. |
| SchedulerRuns.QpuNeverRaisesInRuns | qoala/sim/scheduler.py:1114-1236 | Nor does the QPU scheduler, under the condition on the schedule. |
| NetworkSchedule.NextBinIsNext | qoala/lang/ehi.py:524-545 | With the first bin at zero, `next_bin` returns the least bin start at or after the time, and its bin. |
| NetworkSchedule.NextSpecificBinIsLeast | qoala/lang/ehi.py:547-566 | With the first bin at zero and a bin that occurs once, the closed form is the least wait for it, below one period. |
| NetworkSchedule.SteppingAgrees | qoala/lang/ehi.py:524-566 | The closed form equals the time spent by stepping from bin to bin until the bin comes up. |
| NetworkSchedule.FindSpecificBin | qoala/lang/ehi.py:547-566 | The scan that keeps the last match computes the closed form. |
| Programs.BlockIsDag | qoala/runtime/task.py:770-940 | The graph of a block is a DAG with consecutive ids, for every number of pairs. |
| Programs.SourceAndSinkIffConnected | qoala/runtime/task.py:770-940 | The first task of a block precedes all others, and the exit task follows all others, exactly if the block is not a sequential request without pairs. |
| BlockTheorems.ClassicalBlock | qoala/runtime/task.py:784-790 | A classical block is one host task, as long as its instructions. |
| BlockTheorems.ReceiveBlock | qoala/runtime/task.py:791-801 | A receive block is one receive task with the latency of the peer. |
| BlockTheorems.RoutineBlock | qoala/runtime/task.py:802-840 | A subroutine block is the chain of call, routine and return, which share a pointer. |
| BlockTheorems.WaitAllBlock | qoala/runtime/task.py:841-905 | A request that waits for all pairs is a call, one task for all pairs, the callback if there is one, and the return, in this order. |
| BlockTheorems.SequentialBlock | qoala/runtime/task.py:907-939 | A sequential request without callback has a task for each pair between call and return. |
| BlockTheorems.SequentialCallbackBlock | qoala/runtime/task.py:907-939 | With a callback, each pair is followed by its own, and the return waits for all of those. |
| BlockTheorems.ReceivesIffCC | qoala/runtime/task.py:784-801 | A block has a receive task exactly if it is a receive block. |
| BlockTheorems.HostRunsTheEnds | qoala/runtime/task.py:770-940 | The first task and the exit task of a block run on the CPU, all others on the QPU. |
| ProgramTheorems.ProgramGraphIsDag | qoala/runtime/task.py:955-1189 | Every program that builds gives a DAG with consecutive ids, made of its blocks chained from exit to entry. |
| ProgramTheorems.InSequenceIffConnected | qoala/runtime/task.py:955-1189 | Every task of an earlier block precedes every task of a later one exactly if each sequential request asks for a pair. |
| ProgramDeadlines.ProgramTasksAreBlockTasks | qoala/runtime/task.py:963-1077 | The tasks of a program are those of its blocks; the deadlines of a classical or subroutine block become relative deadlines of its first task on the exit tasks of the blocks they name, the latest before it or a classical block itself. |
| ProgramDeadlines.BuildFailsIffNameUnknown | qoala/runtime/task.py:963-1077 | Building fails exactly if such a deadline names a block that is not there yet. |
| GraphBuilders.BlockGraphBuilder.Build | qoala/runtime/task.py:770-940 | The statements of the block builder give exactly the tasks of the block, with their kinds, durations, precedences and pointers, and use up its ids. |
| GraphBuilders.ProgramGraphBuilder.Build | qoala/runtime/task.py:955-1077 | The program builder computes the graph of the program, and fails exactly when a deadline names an unknown block. |
| SharedPointers.ReadersShareTheEntry | qoala/sim/driver.py:32-51 | Every task of a call but the first reads the pointer that the first one writes; no other block has tasks with pointers. |
| SharedPointers.WrittenBeforeReadIffConnected | qoala/sim/driver.py:32-51 | In no run is the pointer of a call read before it is written, exactly if the block is not a sequential request without pairs. |
| SharedPointers.ProgramPointersAreWritten | qoala/sim/driver.py:82-128 | The same for the blocks of a program uploaded as a whole. |
| NodeRuns.SecondGuardAlwaysHolds | qoala/sim/scheduler.py:536-549 | Whenever the CPU core has no task of a process, the QPU core has none either, so the guard on the QPU core always holds when it is reached. |
| NodeRuns.OneBlockAtATime | qoala/sim/scheduler.py:492-551 | At any time, all queued tasks of a process, on either core, are from one block, with any number of processes and with jumps. |
| NodeJumps.HandsOutIff | qoala/sim/scheduler.py:506-551 | In every run: a block is handed out exactly if the target of the jump, or the next block in line, exists and the CPU core has no task of the process; it is that block, and the jump is taken once. |
| NodeJumps.NextBlockFollows | qoala/sim/scheduler.py:515-549 | Two blocks of a process handed out one after the other without a jump in between are consecutive. |
| NodeJumps.JumpReachesItsTarget | qoala/sim/scheduler.py:506-515 | The first block handed out after a jump is the one the host asked for, however long that takes. |
| NodeJumps.FirstBlockIsFirst | qoala/sim/scheduler.py:506-549 | A process starts with its first block, unless the host asks for another. |
| NodeJumps.JumpPastEndStops | qoala/sim/scheduler.py:519-523 | After a jump past the last block nothing of the process is handed out, until the next jump. |
| NodeOrder.FinishOrderRefinesProgram | qoala/sim/scheduler.py:492-551 | Without jumps, the order in which the tasks of a process finish is a topological order of the graph of its whole program. |
| NodeOrder.FinishOrderIsComplete | qoala/sim/scheduler.py:492-551 | And it lists every task once the last block has been handed out and the CPU core has no task of the process left. |
| NodeProjection.NodeRunProjects | qoala/sim/scheduler.py:429-564 | Every run of the node is a run of its two cores in which each block that was handed out is uploaded. |
| NodeProjection.NodeCoresRefineFullGraph | qoala/sim/scheduler.py:553-564 | So in every state of the node each core has exactly those tasks ready whose predecessors have all finished. |
| NodeProjection.NodeIsDeadlockFree | qoala/sim/scheduler.py:429-551 | While a task that was handed out is unfinished, one of the cores is running or has a ready task. |
| NodeProjection.NodePointersAreWritten | qoala/sim/driver.py:82-128 | A ready task that reads a pointer comes after the pre-call task of its block, which writes that pointer. |
| NodeProjection.NodeSchedulersNeverRaise | qoala/sim/scheduler.py:869-1236 | Neither scheduler of the node ever raises, under the condition on the network schedule. |
| NodeScheduler.Scheduler.FindNextTasksFor | qoala/sim/scheduler.py:492-551 | The method goes on with the target of a pending jump, or with the next block; it hands that block out exactly if the guards allow it, moves on by one block if it does, and resets the jump; the new tasks have fresh ids and the right pid. |
| NodeScheduler.Scheduler.ScheduleNextFor | qoala/sim/scheduler.py:429-447 | The queues of both cores afterwards are those of the node that scheduled the process. |
| NodeScheduler.Scheduler.ScheduleAll | qoala/sim/scheduler.py:449-490 | Putting the tasks aside and adding them at the end gives the queues of scheduling the processes one after the other. |
| NodeScheduler.ScheduledAllKeeps | qoala/sim/scheduler.py:449-490 | A round over all processes keeps the invariant of the node. |
| NodeScheduler.RoundRespectsDependency | qoala/sim/scheduler.py:467-476 | In a round, a process is scheduled exactly if it depends on no other or all blocks of the other have been handed out by then; otherwise nothing changes. |
| EntDist.EntDist.PutRequest | qoala/sim/entdist/entdist.py:216-231 | A request between two registered different nodes is appended to the list of its node; others are refused and change nothing. |
| EntDist.EntDist.GetRemoteRequestFor | qoala/sim/entdist/entdist.py:239-257 | Returns the position of the first opposite request of the remote node. |
| EntDist.EntDist.GetNextJointRequest | qoala/sim/entdist/entdist.py:259-281 | Takes the head of the first list that has an opposite request, and that request, and nothing else; if there is none, the lists stay as they were. |
| EntDist.EntDist.ServeAllRequests | qoala/sim/entdist/entdist.py:295-297 | Ends after half as many rounds as requests it takes away, when no head has an opposite request left. |
| EntDistTheorems.PairingIsFifo | qoala/sim/entdist/entdist.py:216-281 | Over every sequence of requests and joint requests, the k-th request of a process on one node is served with the k-th opposite request from the other. |
| EntDistTheorems.RequestsAreConserved | qoala/sim/entdist/entdist.py:216-281 | Per key, what was put is what was served followed by what is pending, in order. |
| EntDistTheorems.SingleRequestsAreAllServed | qoala/sim/entdist/entdist.py:295-297 | With at most one request per node, serving leaves no two opposite requests. |
| EntDistServing.ServedIff | qoala/sim/entdist/entdist.py:259-297 | A request is served exactly if it has a partner, the opposite request of equal rank, and one of the two is not behind a request that has none. |
| EntDistServing.StuckIffBlocked | qoala/sim/entdist/entdist.py:259-297 | Opposite requests are left behind exactly if, in the lists at the start, two partners both wait behind a request without a partner. |
| EntDistServing.ServingLeaves | qoala/sim/entdist/entdist.py:259-297 | Per key the first requests are taken, in order, and the others stay in their places. |
| QubitMemory.LookupsStayInverse | qoala/sim/memmgr.py:158-169 | After any sequence of operations, failed ones included, `phys_id_for` and `virt_id_for` are inverse, and ids for communication sit on communication qubits. |
| QubitMemory.OwnersAreUnique | qoala/sim/memmgr.py:92-143 | No physical qubit has two owners. |
| QubitMemory.FreeUndoesAllocate | qoala/sim/memmgr.py:92-143 | Freeing what was just allocated restores both maps. |
| QubitMemory.AddingKeepsIffNothingHeld | qoala/sim/memmgr.py:79-84 | Adding a process keeps the maps inverse exactly if no physical qubit is held under its pid. |
| QubitMemory.AllocatableIff | qoala/sim/memmgr.py:92-123 | An id can be allocated exactly if it exists, is unmapped, and a qubit of its kind is held by nobody. |
| MemoryManagers.UsableIff | qoala/sim/scheduler.py:1090-1112 | A routine can use an id exactly if it exists and is mapped already or can be allocated. |
| MemoryManagers.MemoryManager.AddProcess | qoala/sim/memmgr.py:79-84 | A new process starts with every id of its unit module unmapped. |
| MemoryManagers.MemoryManager.Allocate | qoala/sim/memmgr.py:92-113 | Succeeds exactly if the id exists, is unmapped and a qubit of its kind is free, and then maps it to such a qubit; otherwise nothing changes. |
| MemoryManagers.MemoryManager.Free | qoala/sim/memmgr.py:125-143 | Unmaps a mapped id on both sides, and changes nothing otherwise. |
| MemoryManagers.MemoryManager.ProbePairs | qoala/sim/scheduler.py:1041-1089 | Leaves the maps alone, and says whether each id could be allocated on its own. |
| MemoryManagers.MemoryManager.ProbeRoutine | qoala/sim/scheduler.py:1090-1112 | The same for the ids a routine uses, of which those mapped already need nothing. |
| MemoryManagers.MemoryManager.HandleSinglePair | qoala/sim/netstack/netstackprocessor.py:191-203 | Raises exactly if the id cannot be allocated, keeps the qubit after a delivery, and restores the maps after a failed one. |
| MemoryManagers.MemoryManager.HandleMultiPairMd | qoala/sim/netstack/netstackprocessor.py:117-148 | Restores the maps, returns the outcomes in order, and raises exactly if it gets to a pair whose id cannot be allocated. |
| MemoryManagers.MemoryManager.HandleMultiPairCk | qoala/sim/netstack/netstackprocessor.py:99-115 | Raises only if the ids are infeasible, succeeds only if they are feasible, fails otherwise only at an undelivered pair, and keeps exactly the pairs before. |
| MemoryManagers.FeasibleIffProbed | qoala/sim/scheduler.py:1081-1089 | Keeping all pairs succeeds exactly if the probe is positive, the ids are distinct and enough qubits of each kind are free. |
| PairIds.ProbeMultiPair | qoala/sim/scheduler.py:1065-1089 | The probe of a multi-pair task on its id mapping: it raises exactly if a pair has no id, and says whether each id could be allocated on its own. |
| PairIds.IdsAreGiven | qoala/lang/request.py:78-94 | The pairs get the ids that the mapping gives: one for all, consecutive ones, or the listed ones; none exactly if one of them has none. |
| PairIds.KeepableIffDistinct | qoala/lang/request.py:78-94 | After a positive probe, keeping all pairs succeeds exactly if the mapping gives distinct ids, never for several pairs on one id, and enough qubits of each kind are free. |
| SharedMemories.SharedMemory.Allocate | qoala/runtime/sharedmem.py:79-88 | A fresh address of the region with unwritten cells. |
| SharedMemories.SharedMemory.Write | qoala/runtime/sharedmem.py:39-48 | The checks in order, and then exactly the cells of the address from the offset on are overwritten. |
| SharedMemories.SharedMemory.Read | qoala/runtime/sharedmem.py:50-60 | The checks in order, a slice as Python takes it, and an error if a cell is unwritten. |
| SharedMemories.AccessReports | qoala/runtime/sharedmem.py:39-103 | An access goes through exactly if the address is in the region and has the cells; otherwise it reports an address not allocated, a wrong region or too few cells. |
| SharedMemories.ReadGives | qoala/runtime/sharedmem.py:50-60 | Reading gives the values of the cells from the offset on, and fails exactly if one of them is unwritten. |
| SharedMemories.SliceIs | qoala/runtime/sharedmem.py:50-60 | A slice has the cells from the offset to its end; a negative end counts from the end of the array. |
| SharedMemories.OthersDoNotDisturb | qoala/runtime/sharedmem.py:79-187 | Allocations, and writes to other addresses or through other regions, never change the cells of an address. |
| SharedMemories.LastStoreStays | qoala/runtime/sharedmem.py:39-60 | After any sequence of accesses, an address holds what was last written to it in full. |
| HostCalls.GetReturnSize | qoala/lang/request.py:254-272 | Adds up the sizes, with the rules of local routines and of requests for sizes that are not numbers. |
| HostCallTheorems.ReturnSizeIsSum | qoala/lang/request.py:254-272 | The size is the sum of the sizes of the variables, and known exactly if each of them has one. |
| HostCallTheorems.CanPrepareIffFits | qoala/sim/host/hostprocessor.py:333-413 | A call can be prepared exactly if the number of pairs and all sizes are known, and the results of the request and of every run of its callback fill the variables. |
| HostCalls.PrepareRrCall | qoala/sim/host/hostprocessor.py:333-413 | Succeeds exactly if the sizes are known and agree; then the arguments can be read from the region of the request, each run of the callback has regions for its arguments and results, and the request has one for its results. |
| HostCalls.PreparedIsReady | qoala/sim/host/hostprocessor.py:349-399 | The prepared memory holds the arguments and has these regions, as many as the callback runs: once for all pairs or once for each. |
| HostCallTheorems.ArgumentsStayReadable | qoala/sim/host/hostprocessor.py:349-353 | The arguments stay readable until something is stored to their own address through the same region. |
| HostCalls.CollectRrCall | qoala/sim/host/hostprocessor.py:415-458 | Reads the result of the request and then those of the callbacks, and checks their number. |
| HostCallTheorems.PreparedAddressesDiffer | qoala/sim/host/hostprocessor.py:333-413 | The regions of a call are new and pairwise different. |
| HostCallTheorems.CallReturnsEveryResult | qoala/sim/host/hostprocessor.py:415-458 | If all cells of a prepared call have been written, whatever else happened, the completion gets every result in order; its check of the number fails exactly if a size that counts is negative. |
| HostCallTheorems.CallCollectsWhatWasStored | qoala/sim/host/hostprocessor.py:333-458 | From preparation to completion: what the request and its callbacks last stored is what is collected, as many values as there are variables. |
| HostCallTheorems.TupleGetsWhatWasStored | qoala/sim/host/hostprocessor.py:460-474 | The first variables of a tuple get the results of the request, the others those of the callbacks. |
| HostCallTheorems.CallbackReachesItsVariable | qoala/sim/host/hostprocessor.py:460-474 | The j-th result of the callback of pair k gets to the variable at its place. |
| HostCallTheorems.VectorGetsWhatWasStored | qoala/sim/host/hostprocessor.py:460-474 | A vector gets all of them. |
| HostCallTheorems.CallsHaveNoSingleResult | qoala/lang/hostlang.py:604-639 | The result of a parsed call is a tuple or a vector, and then results of local routines are handed over like those of requests. |
| HostLang.KindRoundTrip | qoala/lang/parse.py:22-41 | Every kind of operation is found under its printed name. |
| HostLang.OperationNames | qoala/lang/hostlang.py:217-1001 | The names under which the parser finds the operations. |
| HostLang.ConstructedIffFits | qoala/lang/hostlang.py:224-1043 | An operation can be constructed exactly if its result, its arguments and its attribute fit its kind. |
| HostRoundTrip.OpRoundTrip | qoala/lang/parse.py:373-433 | Parsing a printed operation gives it back, with the vector it defines. |
| HostRoundTrip.HostCodeRoundTrip | qoala/lang/program.py:166-170 | Parsing printed host code gives the same blocks, for every number of blocks, operations and arguments in the fragment. |
| HostRoundTrip.ResultSurvivesIffGood | qoala/lang/parse.py:278-371 | A printed result is parsed back to itself exactly if it is in the fragment. |
| HostRoundTrip.ArgumentSurvivesIffGood | qoala/lang/parse.py:278-371 | The same for an argument; whole vectors never are. |
| HostRoundTrip.HeaderSurvivesIffNoDeadlines | qoala/lang/hostlang.py:1083-1089 | A printed block header is parsed back exactly if the block has no deadlines, and refused otherwise. |
| HostGrammar.VarIff | qoala/lang/parse.py:276-371 | A text is read as a variable exactly if it stands for it: a tuple, the definition of a vector where a result is expected, a vector that has been defined or one of its elements, or a single variable. |
| HostGrammar.LineIff | qoala/lang/parse.py:373-433 | A line is read as an operation exactly if it has the form of a call, with or without a result and an attribute, and its texts stand for variables that fit the operation of that name. |
| BlockGrammar.HeaderIff | qoala/lang/parse.py:526-596 | A line is read as a header exactly if it has the form of one, and gives the name, the type and the deadline in it. |
| BlockGrammar.SeveralDeadlinesAreRefused | qoala/lang/parse.py:508-557 | A header with a list of several deadlines is refused, for every list. |
| BlockGrammar.GroupsAre | qoala/lang/parse.py:478-506 | The groups are the lines from the first header on, in order, and each has one header, at its start. |
| BlockGrammar.HostCodeIff | qoala/lang/parse.py:478-622 | A text is read as host code exactly if it has a header, and each group of its lines is a block that uses the vectors defined before it. |
| ParserClasses.InstrParser.ParseLhr | qoala/lang/parse.py:373-433 | The method parses one instruction as the function does, and defines the same vectors. |
| ParserClasses.InstrParser.Parse | qoala/lang/parse.py:435-452 | The loop over the lines computes what the function on all lines does. |
| ParserClasses.HostCodeParser.GetBlockTexts | qoala/lang/parse.py:478-506 | Cutting the text at the header lines gives the groups of lines of the blocks. |
| ParserClasses.HostCodeParser.Parse | qoala/lang/parse.py:615-622 | The method returns what the function on the groups does. |
| Metadata.MetaRoundTrip | qoala/lang/program.py:44-51 | Parsing printed metadata gives it back, for any number of parameters and sockets. |
| Metadata.MetaParser.Parse | qoala/lang/parse.py:168-223 | The method parses the lines as the function does. |
| MetaGrammar.MetaIff | qoala/lang/parse.py:116-223 | A text is read as metadata exactly if its lines have the right form, and then as what they say; of a socket id that is given twice the last node counts. |
| Metadata.MappingRoundTrip | qoala/lang/request.py:96-151 | Reading a printed id mapping gives it back, whatever its numbers. |
| Metadata.MappingSurvivesIffGood | qoala/lang/request.py:96-151 | And it does so exactly if a template name has no spaces or braces at its ends and a list of ids is not empty. |
| MetaGrammar.MappingIff | qoala/lang/request.py:107-151 | A text is read as a mapping exactly if it stands for it. |

## Findings

Promises that the code keeps only under a condition. Each has an input on which it fails and the
exact condition.

| promise | where it fails | condition |
|---|---|---|
| `next_bin` returns the next bin start | the first bin is subtracted twice (qoala/lang/ehi.py:525-532): wrong for every schedule whose first bin is not at zero | `NetworkSchedule.NextBinRightIffFirstBinZero` |
| `next_specific_bin` is the least wait | the same subtraction (qoala/lang/ehi.py:559-562) | `NetworkSchedule.LeastIffFirstBin`: first bin at zero, or one corner case |
| `next_specific_bin` is the least wait | the last match in the pattern is kept (qoala/lang/ehi.py:550-552) | `NetworkSchedule.LeastIffBinOccursOnce` |
| the QPU scheduler never raises | a first bin too far in the past makes waits negative, and then nothing is ready and nothing waits | `NetworkSchedule.NonNegativeIffFirstBin`, `EdfStatus.WaitingNeverFailsIffLateEnough`, input in `EdfStatus.EarlyScheduleRaises` |
| blocks run one after the other | a sequential request without pairs leaves its post-call task without predecessors (qoala/runtime/task.py:915-939) | `ProgramTheorems.InSequenceIffConnected`, `Programs.SourceAndSinkIffConnected` |
| a pointer is written before it is read | the same block | `SharedPointers.WrittenBeforeReadIffConnected`, run in `SharedPointers.DisconnectedReadsTooEarly` |
| adding a process keeps the lookups inverse | a pid that is used again while its qubits are held | `QubitMemory.AddingKeepsIffNothingHeld` |
| a positive probe means the pairs can be kept | the probe frees each qubit before it tries the next (qoala/sim/scheduler.py:1083-1087), input in `MemoryManagers.ProbeDoesNotReserve`; and a mapping of several pairs to one id always fails | `MemoryManagers.FeasibleIffProbed`, `PairIds.KeepableIffDistinct` |
| serving leaves no two opposite requests | heads that nobody answers block those behind them, input in `EntDistTheorems.OppositesCanBeStuck` | `EntDistServing.StuckIffBlocked`; which requests are served: `EntDistServing.ServedIff` |
| the completion of a call never fails its check | a negative size that counts | `HostCallTheorems.CallReturnsEveryResult` |
| a single result of a local routine reaches its variable | the results are paired with the characters of the variable's name (qoala/sim/host/hostprocessor.py:319-321) | `HostCallTheorems.SingleResultArrivesIffOneCharacter`; no parsed program gets there: `HostCallTheorems.CallsHaveNoSingleResult` |
| printed variables are parsed back | tuples of several names (printed with commas, parsed with semicolons), whole vectors as arguments, names that start with `tuple` | `HostRoundTrip.ResultSurvivesIffGood`, `HostRoundTrip.ArgumentSurvivesIffGood` |
| printed blocks are parsed back | deadlines are printed as a dictionary (qoala/lang/hostlang.py:1086), whose braces the parser refuses (qoala/lang/parse.py:574) | `HostRoundTrip.HeaderSurvivesIffNoDeadlines` |
| a block may have several deadlines | annotations are cut at commas before the list is read (qoala/lang/parse.py:538, 556) | `BlockGrammar.HeaderIff`: one deadline at most; input in `BlockGrammar.SeveralDeadlinesAreRefused` |
| printed id mappings are read back | an empty list; spaces or braces at the ends of a template name | `Metadata.MappingSurvivesIffGood` |

## Left out

- The network simulator: quantum states, gates, noise, samplers, ports, channels and event expressions are abstract steps; measurement outcomes and deliveries are inputs.
- Times are integers, though the source also uses floats; durations of local routines (qoala/runtime/task.py:719-758) and of pairs are inputs of the builders.
- `task_graph.get_tasks().update` shares TaskInfo objects between graphs; graphs are values here, so aliasing of task records is not modelled.
- FinishOrderRefinesProgram: jump-free runs only, since a program with jumps has no single graph; the other results about nodes allow jumps.
- ScheduleAll: a dependency of a linear batch counts as met once its last block has been handed out, as in the source, not once it has finished.
- External relative deadlines: `partial_graph` filters the relative deadlines before it computes them, so they are always empty (qoala/runtime/task.py:623-633), in the model too.
- HandleMultiPairCk: after a failed delivery the pairs kept before stay allocated, as in the source; nothing restores them.
- PrepareRrCall: `args` are the values of the distinct argument names, since the source collects them in a dictionary; `num_pairs` is resolved from the program inputs as the source does.
- Preparation and completion of local routine calls, apart from how results are handed to variables; allocation and freeing of the qubits of a routine by the QPU driver.
- Blocks are given with their single instruction resolved; the assertions that a block has exactly one instruction are not modelled.
- `clear_requests` and the bin-driven mode of the entanglement distributor (qoala/sim/entdist/entdist.py:308-347).
- HostCodeRoundTrip: blocks without deadlines, because the parser refuses headers with printed deadlines (`HostRoundTrip.HeaderSurvivesIffNoDeadlines`).
- PrintItems: names of blocks that `repr` writes without escapes.
- Names and spaces are ASCII, whereas `isidentifier` and `strip` know all of Unicode.
- Printers and parsers of local routines and request routines, and the splitting of a program text into its four parts.
- MetaRoundTrip: sockets in the order in which they were declared, which dictionaries keep.
- Creation of processes, batches, time stamps, statistics, results and logging; `linear_tasks`, `merge`, and start times other than as data of a task.
- The processors that execute instructions (host arithmetic, NetQASM): blocks and routines are tasks with a duration.
