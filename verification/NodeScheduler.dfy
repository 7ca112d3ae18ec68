/** The node scheduler (qoala/sim/scheduler.py:429-551). */
module NodeScheduler {
  import opened Tasks
  import opened Reachability
  import opened Projection
  import opened GraphOps
  import opened TaskGraphs
  import opened TwoCore
  import opened TwoCoreSafety
  import opened Programs
  import opened GraphBuilders
  import opened NodeRuns

  /** The graphs of one block for the two cores; None if the core gets none. */
  datatype Found = Found(cpu: Option<Graph>, qpu: Option<Graph>)

  function With(g: Graph, added: Option<Graph>): Graph {
    if added.Some? then Merge(g, added.value) else g
  }

  /** `Delivered` says that `found` is what `n'` has more than `n`. */
  ghost predicate Delivered(n: Node, n': Node, found: Found) {
    && n'.sys.cpu.graph == With(n.sys.cpu.graph, found.cpu)
    && n'.sys.qpu.graph == With(n.sys.qpu.graph, found.qpu)
  }

  // ----- the partial graphs of a block of classical instructions -----

  lemma ClassicalParts(b: Block, pid: int, tm: Timing, first: int)
    requires IsClassical(b)
    ensures var h := BlockGraph(b, pid, tm, first);
            IsDag(h) && PartialGraph(h, CPU) == h && PartialGraph(h, QPU) == EmptyGraph
  {
    var h := BlockGraph(b, pid, tm, first);
    BlockIsDag(b, pid, tm, first);
    var m := h.tasks;
    assert h.order == [first] by { assert Offsets(first, 0) == []; }
    assert m.Keys == {first} && m[first].preds == {} by { assert PredsAt(b, first, first) == {}; }
    assert Proc(m, first) == CPU;
    assert TasksOn(m, CPU) == {first} && TasksOn(m, QPU) == {};
    ClassicalInfo(m, first);
    assert PartialTasks(m, CPU) == m;
  }

  lemma ClassicalInfo(m: TaskMap, t: int)
    requires Acyclic(m) && Closed(m) && m.Keys == {t} && m[t] == OnlyTask(m[t].task)
    ensures PartialInfo(m, t) == m[t]
  {
    assert PartialExtPreds(m, t) == {};
    assert CrossPredecessors(m, t, true) == {};
    assert DoubleCrossPredecessors(m, t) == {};
    assert PartialPreds(m, t) == {};
    assert PartialSuccs(m, t) == {};
    assert Restrict(m[t].relDeadlines, TasksOn(m, Proc(m, t))) == map[];
  }

  // ----- what one call finds -----

  lemma MergeNothing(g: Graph)
    ensures Merge(g, EmptyGraph) == g
  {
    assert g.order + [] == g.order;
    assert g.tasks + map[] == g.tasks;
  }

  lemma UploadGraphs(s: System, h: Graph)
    requires Acyclic(h.tasks) && Closed(h.tasks)
    ensures Upload(s, h).cpu.graph == Merge(s.cpu.graph, PartialGraph(h, CPU))
    ensures Upload(s, h).qpu.graph == Merge(s.qpu.graph, PartialGraph(h, QPU))
  {
  }

  function Parts(b: Block, pid: int, tm: Timing, first: int): Found {
    var h := BlockGraph(b, pid, tm, first);
    BlockIsDag(b, pid, tm, first);
    if IsClassical(b) then Found(Some(h), None) else Found(Some(PartialGraph(h, CPU)), Some(PartialGraph(h, QPU)))
  }

  lemma PartsOfUpload(s: System, s': System, b: Block, pid: int, tm: Timing, first: int)
    requires IsDag(BlockGraph(b, pid, tm, first)) && s' == Upload(s, BlockGraph(b, pid, tm, first))
    ensures s'.cpu.graph == With(s.cpu.graph, Parts(b, pid, tm, first).cpu)
    ensures s'.qpu.graph == With(s.qpu.graph, Parts(b, pid, tm, first).qpu)
  {
    UploadGraphs(s, BlockGraph(b, pid, tm, first));
    if IsClassical(b) {
      ClassicalParts(b, pid, tm, first);
      MergeNothing(s.qpu.graph);
    }
  }

  lemma PartsAreDelivered(n: Node, pid: int)
    requires pid in n.programs && pid in n.index && MayPlace(n, pid)
    ensures Delivered(n, Place(n, pid), Parts(n.programs[pid].blocks[n.index[pid]], pid, n.programs[pid].timing, n.counter))
  {
    PlacedSystem(n, pid);
    PartsOfUpload(n.sys, Place(n, pid).sys, n.programs[pid].blocks[n.index[pid]], pid, n.programs[pid].timing, n.counter);
  }

  lemma NoDelivery(n: Node, n': Node, found: Found)
    requires n'.sys == n.sys && (found == Found(None, None) || found == Found(Some(EmptyGraph), Some(EmptyGraph)))
    ensures Delivered(n, n', found)
  {
    MergeNothing(n.sys.cpu.graph);
    MergeNothing(n.sys.qpu.graph);
  }

  lemma PlacedSystem(n: Node, pid: int)
    requires pid in n.programs && pid in n.index && MayPlace(n, pid)
    ensures var b := n.programs[pid].blocks[n.index[pid]];
            var h := BlockGraph(b, pid, n.programs[pid].timing, n.counter);
            IsDag(h) && Place(n, pid).sys == Upload(n.sys, h)
  {
    PlaceFields(n, Placement(pid, n.index[pid], n.programs[pid].blocks[n.index[pid]], n.counter));
  }

  /** New tasks have ids that were not used before, and belong to the process. */
  ghost predicate IsFresh(added: Option<Graph>, first: int, next: int, pid: int) {
    added.Some? ==>
      && Ordered(added.value)
      && forall t :: t in added.value.tasks ==> first <= t < next && added.value.tasks[t].task.pid == pid
  }

  lemma PartIsOrdered(g: Graph, proc: ProcessorType)
    requires IsDag(g)
    ensures Ordered(PartialGraph(g, proc)) && PartialGraph(g, proc).tasks.Keys == TasksOn(g.tasks, proc)
  {
    PickNoDup(g.order, TasksOn(g.tasks, proc));
    var part := PartialGraph(g, proc);
    forall t ensures t in Elements(part.order) <==> t in part.tasks.Keys {
      assert t in g.tasks ==> t in Elements(g.order);
    }
  }

  lemma PartOwner(b: Block, pid: int, tm: Timing, first: int, proc: ProcessorType, t: int)
    requires IsDag(BlockGraph(b, pid, tm, first)) && t in PartialGraph(BlockGraph(b, pid, tm, first), proc).tasks
    ensures first <= t < first + Size(b)
    ensures PartialGraph(BlockGraph(b, pid, tm, first), proc).tasks[t].task.pid == pid
  {
    var h := BlockGraph(b, pid, tm, first);
    assert t in TasksOn(h.tasks, proc) && t in Ids(b, first);
    EndsOnCpu(b, pid, tm, first);
  }

  lemma PartIsFresh(b: Block, pid: int, tm: Timing, first: int, proc: ProcessorType)
    requires IsDag(BlockGraph(b, pid, tm, first))
    ensures IsFresh(Some(PartialGraph(BlockGraph(b, pid, tm, first), proc)), first, first + Size(b), pid)
  {
    var part := PartialGraph(BlockGraph(b, pid, tm, first), proc);
    PartIsOrdered(BlockGraph(b, pid, tm, first), proc);
    forall t | t in part.tasks ensures first <= t < first + Size(b) && part.tasks[t].task.pid == pid {
      PartOwner(b, pid, tm, first, proc, t);
    }
  }

  lemma PartsAreFresh(b: Block, pid: int, tm: Timing, first: int)
    ensures IsFresh(Parts(b, pid, tm, first).cpu, first, first + Size(b), pid)
    ensures IsFresh(Parts(b, pid, tm, first).qpu, first, first + Size(b), pid)
  {
    BlockIsDag(b, pid, tm, first);
    PartIsFresh(b, pid, tm, first, CPU);
    PartIsFresh(b, pid, tm, first, QPU);
    if IsClassical(b) {
      ClassicalParts(b, pid, tm, first);
    }
  }

  /** `n'` is `n` after the next block of `pid` was handed out. */
  ghost predicate IsNext(n: Node, n': Node, pid: int)
    requires pid in n.programs && pid in n.index && n.index[pid] < |n.programs[pid].blocks|
  {
    var b := n.programs[pid].blocks[n.index[pid]];
    && n'.counter == n.counter + Size(b) && n'.programs == n.programs && n'.jumps == n.jumps
    && n'.index == n.index[pid := n.index[pid] + 1]
    && Delivered(n, n', Parts(b, pid, n.programs[pid].timing, n.counter))
  }

  lemma PlaceIsNext(n: Node, pid: int)
    requires pid in n.programs && pid in n.index && MayPlace(n, pid)
    ensures IsNext(n, Place(n, pid), pid)
  {
    PlaceFields(n, Placement(pid, n.index[pid], n.programs[pid].blocks[n.index[pid]], n.counter));
    PartsAreDelivered(n, pid);
  }

  ghost predicate AreNew(added: Option<Graph>, first: int) {
    added.Some? ==> Ordered(added.value) && forall t :: t in added.value.tasks ==> first <= t
  }

  // ----- where a process is -----

  /** The block a process goes on with: the target of a jump that has not been taken yet, or
      the next one in line. */
  function Position(index: map<int, nat>, jumps: map<int, int>, pid: int): nat
    requires pid in index
  {
    if pid in jumps && jumps[pid] >= 0 then jumps[pid] else index[pid]
  }

  /** There is such a block, and the cores have no tasks of the process that forbid it. */
  predicate MayHandOut(index: map<int, nat>, jumps: map<int, int>, blocks: seq<Block>, pid: int, hasCpu: bool, hasQpu: bool)
    requires pid in index
  {
    var k := Position(index, jumps, pid);
    k < |blocks| && !hasCpu && (blocks[k].kind.CL? || blocks[k].kind.CC? || !hasQpu)
  }

  /** Afterwards the process is past that block if it was handed out, and at it if not; a
      jump is taken once, and other processes stay where they are. */
  ghost predicate IsNewPosition(index: map<int, nat>, jumps: map<int, int>, index': map<int, nat>, jumps': map<int, int>,
                                pid: int, handedOut: bool)
    requires pid in index
  {
    && index' == index[pid := Position(index, jumps, pid) + if handedOut then 1 else 0]
    && jumps' == if pid in jumps && jumps[pid] >= 0 then jumps[pid := -1] else jumps
  }

  lemma TakenPosition(n: Node, pid: int)
    requires pid in n.programs && pid in n.index
    ensures TakeJump(n, pid).index == n.index[pid := Position(n.index, n.jumps, pid)]
    ensures TakeJump(n, pid).jumps == if pid in n.jumps && n.jumps[pid] >= 0 then n.jumps[pid := -1] else n.jumps
    ensures TakeJump(n, pid).programs == n.programs && TakeJump(n, pid).sys == n.sys
  {
    assert n.index[pid := n.index[pid]] == n.index;
  }

  lemma PlacedPosition(m: Node, pid: int, k: nat)
    requires pid in m.programs && pid in m.index && m.index[pid] == k < |m.programs[pid].blocks|
    ensures Place(m, pid).index == m.index[pid := k + 1] && Place(m, pid).jumps == m.jumps
  {
    PlaceFields(m, Placement(pid, k, m.programs[pid].blocks[k], m.counter));
  }

  lemma OverwriteIndex(index: map<int, nat>, pid: int, k: nat)
    ensures index[pid := k][pid := k + 1] == index[pid := k + 1]
  {
  }

  lemma NewPosition(n: Node, pid: int)
    requires pid in n.programs && pid in n.index
    ensures IsNewPosition(n.index, n.jumps, Scheduled(n, pid).index, Scheduled(n, pid).jumps, pid,
                          MayHandOut(n.index, n.jumps, n.programs[pid].blocks, pid, HasTask(n.sys.cpu, pid),
                                     HasTask(n.sys.qpu, pid)))
  {
    var m, k := TakeJump(n, pid), Position(n.index, n.jumps, pid);
    TakenPosition(n, pid);
    OverwriteIndex(n.index, pid, k);
    if MayPlace(m, pid) {
      PlacedPosition(m, pid, k);
    }
  }

  class Scheduler {
    const builder: BlockGraphBuilder
    const cpu: TaskGraph
    const qpu: TaskGraph
    var programs: map<int, Instance>
    var index: map<int, nat>
    var jumps: map<int, int>

    constructor ()
      ensures fresh(builder) && fresh(builder.ids) && fresh(cpu) && fresh(qpu)
      ensures Books(InitialNode) && cpu.Value() == EmptyGraph == qpu.Value()
    {
      builder := new BlockGraphBuilder();
      cpu := new TaskGraph();
      qpu := new TaskGraph();
      programs, index, jumps := map[], map[], map[];
    }

    /** The scheduler's own fields are those of the node. */
    ghost predicate Books(n: Node)
      reads this, builder, builder.ids
    {
      n.counter == builder.ids.counter && n.programs == programs && n.index == index && n.jumps == jumps
    }

    method TakePendingJump(pid: int, ghost n: Node)
      requires Books(n) && pid in index
      modifies this
      ensures Books(TakeJump(n, pid))
    {
      if pid in jumps && jumps[pid] >= 0 {
        index := index[pid := jumps[pid]];
        jumps := jumps[pid := -1];
      }
    }

    /** Builds a block and splits it over the cores. */
    method BuildParts(b: Block, pid: int, tm: Timing) returns (found: Found)
      modifies builder.ids
      ensures found == Parts(b, pid, tm, old(builder.ids.counter))
      ensures builder.ids.counter == old(builder.ids.counter) + Size(b)
    {
      BlockIsDag(b, pid, tm, builder.ids.counter);
      var graph := builder.Build(b, pid, tm);
      if b.kind.CL? || b.kind.CC? {
        found := Found(Some(Graph(graph.order, graph.tasks)), None);
      } else {
        var c := graph.PartialGraph(CPU);
        var q := graph.PartialGraph(QPU);
        found := Found(Some(Graph(c.order, c.tasks)), Some(Graph(q.order, q.tasks)));
      }
    }

    method BuildNext(pid: int, ghost n: Node, ghost n': Node) returns (found: Found)
      requires Books(n) && pid in programs && pid in index && index[pid] < |programs[pid].blocks|
      requires IsNext(n, n', pid)
      modifies `index, builder.ids
      ensures Books(n') && Delivered(n, n', found)
      ensures IsFresh(found.cpu, n.counter, n'.counter, pid) && IsFresh(found.qpu, n.counter, n'.counter, pid)
    {
      PartsAreFresh(programs[pid].blocks[index[pid]], pid, programs[pid].timing, n.counter);
      found := BuildParts(programs[pid].blocks[index[pid]], pid, programs[pid].timing);
      index := index[pid := index[pid] + 1];
    }

    /** `hasCpu` and `hasQpu` are the answers of `task_exists_for_pid` of the two cores. */
    method FindNextTasksFor(pid: int, hasCpu: bool, hasQpu: bool, ghost n: Node) returns (found: Found)
      requires Books(n) && pid in programs && pid in index
      requires hasCpu == HasTask(n.sys.cpu, pid) && hasQpu == HasTask(n.sys.qpu, pid)
      modifies this, builder.ids
      ensures Books(Scheduled(n, pid)) && Delivered(n, Scheduled(n, pid), found)
      ensures IsFresh(found.cpu, n.counter, Scheduled(n, pid).counter, pid)
      ensures IsFresh(found.qpu, n.counter, Scheduled(n, pid).counter, pid)
      ensures programs == old(programs)
      ensures IsNewPosition(old(index), old(jumps), index, jumps, pid,
                            MayHandOut(old(index), old(jumps), programs[pid].blocks, pid, hasCpu, hasQpu))
    {
      NewPosition(n, pid);
      ghost var m := TakeJump(n, pid);
      TakePendingJump(pid, n);
      var blocks := programs[pid].blocks;
      if index[pid] >= |blocks| || hasCpu {
        NoDelivery(n, m, Found(None, None));
        return Found(None, None);
      }
      var b := blocks[index[pid]];
      if b.kind.CL? || b.kind.CC? || !hasQpu {
        PlaceIsNext(m, pid);
        found := BuildNext(pid, m, Place(m, pid));
      } else {
        NoDelivery(n, m, Found(Some(EmptyGraph), Some(EmptyGraph)));
        return Found(Some(EmptyGraph), Some(EmptyGraph));
      }
    }

    // ----- handing the tasks to the cores -----

    ghost predicate Cores(n: Node)
      reads cpu, qpu
    {
      cpu.Value() == n.sys.cpu.graph && qpu.Value() == n.sys.qpu.graph
    }

    method DeliverBoth(found: Found, ghost n: Node, ghost n': Node)
      requires Cores(n) && Delivered(n, n', found) && cpu != qpu
      requires AreNew(found.cpu, n.counter) && AreNew(found.qpu, n.counter)
      requires forall t :: t in n.sys.cpu.graph.tasks || t in n.sys.qpu.graph.tasks ==> t < n.counter
      modifies cpu, qpu
      ensures Cores(n')
    {
      Deliver(cpu, found.cpu, n.counter);
      Deliver(qpu, found.qpu, n.counter);
    }

    /** The two `add_tasks` at the end of `schedule_all`. */
    method DeliverGathered(cpuTasks: Graph, qpuTasks: Graph, ghost n: Node, ghost m: Node, ghost seen: set<int>)
      requires Cores(n) && NodeInv(n) && Gathered(n, m, cpuTasks, qpuTasks, seen) && cpu != qpu
      modifies cpu, qpu
      ensures Cores(m)
    {
      QueuesAreOrdered(n);
      DeliverBoth(Found(Some(cpuTasks), Some(qpuTasks)), n, m);
    }

    method AskCores(pid: int, ghost n: Node) returns (hasCpu: bool, hasQpu: bool)
      requires Cores(n) && NodeInv(n)
      ensures hasCpu == HasTask(n.sys.cpu, pid) && hasQpu == HasTask(n.sys.qpu, pid)
    {
      QueuesAreOrdered(n);
      hasCpu := cpu.TaskExistsForPid(pid);
      hasQpu := qpu.TaskExistsForPid(pid);
    }

    method ScheduleNextFor(pid: int, ghost n: Node)
      requires Books(n) && Cores(n) && NodeInv(n) && pid in programs && pid in index && cpu != qpu
      modifies this, builder.ids, cpu, qpu
      ensures Books(Scheduled(n, pid)) && Cores(Scheduled(n, pid))
    {
      var hasCpu, hasQpu := AskCores(pid, n);
      var found := FindNextTasksFor(pid, hasCpu, hasQpu, n);
      QueuesAreOrdered(n);
      DeliverBoth(found, n, Scheduled(n, pid));
    }

    /** One process of the loop of `schedule_all`: its new tasks are put aside. */
    method GatherFor(pid: int, cpuTasks: Graph, qpuTasks: Graph, ghost n: Node, ghost m: Node, ghost seen: set<int>)
      returns (cpuTasks': Graph, qpuTasks': Graph)
      requires Cores(n) && Books(m) && NodeInv(n) && Gathered(n, m, cpuTasks, qpuTasks, seen)
      requires pid in programs && pid in index && pid !in seen
      modifies this, builder.ids
      ensures Books(Scheduled(m, pid)) && Gathered(n, Scheduled(m, pid), cpuTasks', qpuTasks', seen + {pid})
    {
      var hasCpu, hasQpu := AskCores(pid, n);
      NotGathered(n.sys.cpu, m.sys.cpu, cpuTasks, n.counter, m.counter, seen, pid);
      NotGathered(n.sys.qpu, m.sys.qpu, qpuTasks, n.counter, m.counter, seen, pid);
      var found := FindNextTasksFor(pid, hasCpu, hasQpu, m);
      GatherMore(n, m, Scheduled(m, pid), cpuTasks, qpuTasks, found, seen, pid);
      cpuTasks' := if found.cpu.Some? then Updated(cpuTasks, found.cpu.value) else cpuTasks;
      qpuTasks' := if found.qpu.Some? then Updated(qpuTasks, found.qpu.value) else qpuTasks;
    }

    /** One round of the loop of `schedule_all`. */
    method RoundFor(pid: int, dependency: map<int, int>, cpuTasks: Graph, qpuTasks: Graph, ghost n: Node, ghost m: Node,
                    ghost seen: set<int>)
      returns (cpuTasks': Graph, qpuTasks': Graph, ghost m': Node)
      requires Cores(n) && Books(m) && NodeInv(n) && Gathered(n, m, cpuTasks, qpuTasks, seen)
      requires Known(m, dependency, [pid]) && pid in m.programs && pid in m.index && pid !in seen
      modifies this, builder.ids
      ensures m' == RoundOf(m, dependency, pid) && Books(m')
      ensures Gathered(n, m', cpuTasks', qpuTasks', seen + {pid})
    {
      KnownHas(m, dependency, pid);
      m' := RoundOf(m, dependency, pid);
      var other := dependency[pid];
      if other == -1 || index[other] >= |programs[other].blocks| {
        cpuTasks', qpuTasks' := GatherFor(pid, cpuTasks, qpuTasks, n, m, seen);
      } else {
        GatheredMonotone(n, m, cpuTasks, qpuTasks, seen, pid);
        cpuTasks', qpuTasks' := cpuTasks, qpuTasks;
      }
    }

    /** The loop of `schedule_all`, over the processes in the order of the memory manager's
        dictionary. */
    method GatherAll(pids: seq<int>, dependency: map<int, int>, ghost n: Node)
      returns (cpuTasks: Graph, qpuTasks: Graph)
      requires Books(n) && Cores(n) && NodeInv(n) && Known(n, dependency, pids) && NoDup(pids)
      modifies this, builder.ids
      ensures Books(ScheduledAll(n, dependency, pids))
      ensures Gathered(n, ScheduledAll(n, dependency, pids), cpuTasks, qpuTasks, Elements(pids))
    {
      cpuTasks, qpuTasks := EmptyGraph, EmptyGraph;
      ghost var m, seen := n, Elements(pids[..0]);
      NothingGathered(n, seen);
      for i := 0 to |pids|
        invariant Cores(n) && Books(m) && RoundsUpTo(n, m, dependency, pids, i)
        invariant seen == Elements(pids[..i]) && Gathered(n, m, cpuTasks, qpuTasks, seen)
      {
        RoundStep(n, m, dependency, pids, i);
        cpuTasks, qpuTasks, m := RoundFor(pids[i], dependency, cpuTasks, qpuTasks, n, m, seen);
        seen := seen + {pids[i]};
      }
      AllRounds(n, m, dependency, pids);
      assert pids[..|pids|] == pids;
    }

    method ScheduleAll(pids: seq<int>, dependency: map<int, int>, ghost n: Node)
      requires Books(n) && Cores(n) && NodeInv(n) && Known(n, dependency, pids) && NoDup(pids) && cpu != qpu
      modifies this, builder.ids, cpu, qpu
      ensures Books(ScheduledAll(n, dependency, pids)) && Cores(ScheduledAll(n, dependency, pids))
    {
      var cpuTasks, qpuTasks := GatherAll(pids, dependency, n);
      DeliverGathered(cpuTasks, qpuTasks, n, ScheduledAll(n, dependency, pids), Elements(pids));
    }
  }

  // ----- the tasks put aside by schedule_all -----

  ghost predicate Aside(g: Graph, lo: int, hi: int, seen: set<int>) {
    Ordered(g) && forall t :: t in g.tasks ==> lo <= t < hi && g.tasks[t].task.pid in seen
  }

  /** `m` is `n` with the tasks that were put aside. */
  ghost predicate Gathered(n: Node, m: Node, c: Graph, q: Graph, seen: set<int>) {
    && m.counter >= n.counter
    && m.sys.cpu.graph == Merge(n.sys.cpu.graph, c) && m.sys.qpu.graph == Merge(n.sys.qpu.graph, q)
    && Aside(c, n.counter, m.counter, seen) && Aside(q, n.counter, m.counter, seen)
  }

  lemma NothingGathered(n: Node, seen: set<int>)
    ensures Gathered(n, n, EmptyGraph, EmptyGraph, seen)
  {
    MergeNothing(n.sys.cpu.graph);
    MergeNothing(n.sys.qpu.graph);
  }

  lemma GatheredMonotone(n: Node, m: Node, c: Graph, q: Graph, seen: set<int>, pid: int)
    requires Gathered(n, m, c, q, seen)
    ensures Gathered(n, m, c, q, seen + {pid})
  {
  }

  lemma NotGathered(a: Core, b: Core, g: Graph, lo: int, hi: int, seen: set<int>, pid: int)
    requires b.graph == Merge(a.graph, g) && Aside(g, lo, hi, seen) && pid !in seen
    requires forall t :: t in a.graph.tasks ==> t < lo
    ensures HasTask(b, pid) == HasTask(a, pid)
  {
    if HasTask(a, pid) {
      var t :| t in a.graph.tasks && a.graph.tasks[t].task.pid == pid;
      assert t in b.graph.tasks && b.graph.tasks[t] == a.graph.tasks[t];
    }
  }

  lemma MergeAssociative(a: Graph, b: Graph, c: Graph)
    ensures Merge(Merge(a, b), c) == Merge(a, Merge(b, c))
  {
    assert (a.order + b.order) + c.order == a.order + (b.order + c.order);
    assert (a.tasks + b.tasks) + c.tasks == a.tasks + (b.tasks + c.tasks);
  }

  lemma AsideGrows(g: Graph, added: Option<Graph>, lo: int, mid: int, hi: int, seen: set<int>, pid: int)
    requires Aside(g, lo, mid, seen) && IsFresh(added, mid, hi, pid) && lo <= mid <= hi
    ensures added.Some? ==> Updated(g, added.value) == Merge(g, added.value)
    ensures Aside(With(g, added), lo, hi, seen + {pid})
  {
    if added.Some? {
      UpdatedIsMerge(g, added.value);
      MergedIsOrdered(g, added.value);
    }
  }

  lemma WithMerge(g: Graph, c: Graph, added: Option<Graph>)
    ensures With(Merge(g, c), added) == Merge(g, With(c, added))
  {
    if added.Some? {
      MergeAssociative(g, c, added.value);
    }
  }

  lemma GatherMore(n: Node, m: Node, m': Node, c: Graph, q: Graph, found: Found, seen: set<int>, pid: int)
    requires Gathered(n, m, c, q, seen) && Delivered(m, m', found) && m'.counter >= m.counter
    requires IsFresh(found.cpu, m.counter, m'.counter, pid) && IsFresh(found.qpu, m.counter, m'.counter, pid)
    ensures found.cpu.Some? ==> Updated(c, found.cpu.value) == Merge(c, found.cpu.value)
    ensures found.qpu.Some? ==> Updated(q, found.qpu.value) == Merge(q, found.qpu.value)
    ensures Gathered(n, m', With(c, found.cpu), With(q, found.qpu), seen + {pid})
  {
    AsideGrows(c, found.cpu, n.counter, m.counter, m'.counter, seen, pid);
    AsideGrows(q, found.qpu, n.counter, m.counter, m'.counter, seen, pid);
    WithMerge(n.sys.cpu.graph, c, found.cpu);
    WithMerge(n.sys.qpu.graph, q, found.qpu);
  }

  ghost predicate RoundsUpTo(n: Node, m: Node, dependency: map<int, int>, pids: seq<int>, i: nat)
    requires i <= |pids|
  {
    Known(n, dependency, pids[..i]) && m == ScheduledAll(n, dependency, pids[..i])
  }

  lemma AllRounds(n: Node, m: Node, dependency: map<int, int>, pids: seq<int>)
    requires Known(n, dependency, pids) && RoundsUpTo(n, m, dependency, pids, |pids|)
    ensures m == ScheduledAll(n, dependency, pids)
  {
    assert pids[..|pids|] == pids;
  }

  lemma KnownHas(m: Node, dependency: map<int, int>, pid: int)
    requires Known(m, dependency, [pid])
    ensures pid in dependency && m.index.Keys == m.programs.Keys
    ensures dependency[pid] == -1 || (dependency[pid] in m.programs && dependency[pid] in m.index)
  {
    assert pid in [pid];
  }

  lemma RoundStep(n: Node, m: Node, dependency: map<int, int>, pids: seq<int>, i: nat)
    requires i < |pids| && NoDup(pids) && Known(n, dependency, pids) && RoundsUpTo(n, m, dependency, pids, i)
    ensures Known(m, dependency, [pids[i]]) && pids[i] in m.programs && pids[i] in m.index &&
            pids[i] !in Elements(pids[..i])
    ensures Elements(pids[..i + 1]) == Elements(pids[..i]) + {pids[i]}
    ensures RoundsUpTo(n, RoundOf(m, dependency, pids[i]), dependency, pids, i + 1)
  {
    NextInOrder(pids, i);
    assert pids[..i + 1][..i] == pids[..i];
    assert pids[i] in pids;
    assert forall x :: x in pids[..i + 1] ==> x in pids;
  }

  /** `add_tasks`, if there are any. */
  method Deliver(core: TaskGraph, added: Option<Graph>, ghost first: int)
    requires AreNew(added, first) && forall t :: t in core.tasks ==> t < first
    modifies core
    ensures core.Value() == With(old(core.Value()), added)
  {
    if added.Some? {
      UpdatedIsMerge(core.Value(), added.value);
      if added.value.tasks != map[] {
        core.Update(added.value);
      } else {
        NothingAdded(core.Value(), added.value);
      }
    }
  }

  lemma NonEmptyElements(s: seq<int>)
    requires s != []
    ensures Elements(s) != {}
  {
    assert s[0] in Elements(s);
  }

  lemma NothingAdded(g: Graph, h: Graph)
    requires Ordered(h) && h.tasks == map[]
    ensures Merge(g, h) == g
  {
    if h.order != [] {
      NonEmptyElements(h.order);
    }
    MergeNothing(g);
  }

  lemma QueueIsOrdered(s: System, proc: ProcessorType)
    requires SystemInv(s)
    ensures Ordered(s.Of(proc).graph) && s.Of(proc).graph.tasks.Keys <= s.full.tasks.Keys
  {
    StateFacts(s);
    assert CoreFacts(s, proc);
    var c := s.Of(proc).graph;
    PickNoDup(s.full.order, c.tasks.Keys);
    forall t ensures t in Elements(c.order) <==> t in c.tasks.Keys {
      assert t in s.full.tasks ==> t in Elements(s.full.order);
    }
  }

  lemma QueuesAreOrdered(n: Node)
    requires NodeInv(n)
    ensures Ordered(n.sys.cpu.graph) && Ordered(n.sys.qpu.graph)
    ensures forall t :: t in n.sys.cpu.graph.tasks || t in n.sys.qpu.graph.tasks ==> t < n.counter
  {
    QueueIsOrdered(n.sys, CPU);
    QueueIsOrdered(n.sys, QPU);
    forall t | t in n.sys.cpu.graph.tasks || t in n.sys.qpu.graph.tasks ensures t < n.counter {
      assert t in n.sys.full.tasks;
    }
  }

  // ----- schedule_all -----

  /** The dependency of a linear batch: it counts as met once its last block has been
      handed out. */
  predicate DependencyMet(n: Node, dependency: map<int, int>, pid: int)
    requires pid in dependency
    requires dependency[pid] == -1 || (dependency[pid] in n.programs && dependency[pid] in n.index)
  {
    dependency[pid] == -1 || n.index[dependency[pid]] >= |n.programs[dependency[pid]].blocks|
  }

  /** Every process has an index and a known dependency. */
  ghost predicate Known(n: Node, dependency: map<int, int>, pids: seq<int>) {
    && n.index.Keys == n.programs.Keys
    && forall pid :: pid in pids ==>
         pid in n.programs && pid in dependency && (dependency[pid] == -1 || dependency[pid] in n.programs)
  }

  ghost function RoundOf(n: Node, dependency: map<int, int>, pid: int): Node
    requires Known(n, dependency, [pid])
  {
    assert pid in [pid];
    if DependencyMet(n, dependency, pid) then Scheduled(n, pid) else n
  }

  lemma RoundFields(n: Node, dependency: map<int, int>, pid: int)
    requires Known(n, dependency, [pid])
    ensures RoundOf(n, dependency, pid).programs == n.programs
    ensures RoundOf(n, dependency, pid).index.Keys == n.index.Keys
    ensures RoundOf(n, dependency, pid).counter >= n.counter
  {
    assert pid in [pid];
    var m := TakeJump(n, pid);
    assert m.index.Keys == n.index.Keys;
    if MayPlace(m, pid) {
      PlaceFields(m, Placement(pid, m.index[pid], m.programs[pid].blocks[m.index[pid]], m.counter));
    }
  }

  /** The processes are scheduled one after the other. */
  ghost function ScheduledAll(n: Node, dependency: map<int, int>, pids: seq<int>): (r: Node)
    requires Known(n, dependency, pids)
    ensures r.programs == n.programs && r.index.Keys == n.index.Keys && r.counter >= n.counter
  {
    if pids == [] then n
    else
      var front, pid := pids[..|pids| - 1], pids[|pids| - 1];
      assert forall x :: x in front ==> x in pids;
      assert pid in pids;
      var before := ScheduledAll(n, dependency, front);
      assert Known(before, dependency, [pid]);
      RoundFields(before, dependency, pid);
      RoundOf(before, dependency, pid)
  }

  lemma {:induction false} ScheduledAllKeeps(n: Node, dependency: map<int, int>, pids: seq<int>)
    requires Known(n, dependency, pids) && NodeInv(n)
    ensures NodeInv(ScheduledAll(n, dependency, pids))
  {
    if pids != [] {
      var front, pid := pids[..|pids| - 1], pids[|pids| - 1];
      assert forall x :: x in front ==> x in pids;
      assert pid in pids;
      ScheduledAllKeeps(n, dependency, front);
      var before := ScheduledAll(n, dependency, front);
      if DependencyMet(before, dependency, pid) {
        NodeStepKeeps(before, Schedule(pid));
      }
    }
  }

  lemma KnownPrefix(n: Node, dependency: map<int, int>, pids: seq<int>, k: nat)
    requires Known(n, dependency, pids) && k <= |pids|
    ensures Known(n, dependency, pids[..k])
  {
    assert forall x :: x in pids[..k] ==> x in pids;
  }

  lemma KnownAt(n: Node, dependency: map<int, int>, pids: seq<int>, pid: int)
    requires Known(n, dependency, pids) && pid in pids
    ensures pid in dependency && pid in n.programs
    ensures dependency[pid] == -1 || dependency[pid] in n.programs
  {
  }

  /** In a round over all processes, each process in its turn is scheduled if it depends on
      no other, or if all blocks of the other have been handed out by then; if not, it has to
      wait and nothing changes. */
  lemma RoundRespectsDependency(n: Node, dependency: map<int, int>, pids: seq<int>, k: nat, next: nat)
    requires Known(n, dependency, pids) && k < |pids| && next == k + 1
    ensures Known(n, dependency, pids[..k]) && Known(n, dependency, pids[..next])
    ensures pids[k] in dependency && pids[k] in n.programs
    ensures var before, after := ScheduledAll(n, dependency, pids[..k]), ScheduledAll(n, dependency, pids[..next]);
            var pid, other := pids[k], dependency[pids[k]];
            && pid in before.programs && pid in before.index
            && (other != -1 ==> other in before.programs && other in before.index)
            && (other == -1 || before.index[other] >= |before.programs[other].blocks| ==> after == Scheduled(before, pid))
            && (other != -1 && before.index[other] < |before.programs[other].blocks| ==> after == before)
  {
    KnownPrefix(n, dependency, pids, k);
    KnownPrefix(n, dependency, pids, next);
    assert pids[..next][..k] == pids[..k];
    KnownAt(n, dependency, pids, pids[k]);
  }
}
