/** The node scheduler feeds the two cores block by block (qoala/sim/scheduler.py:394-551). */
module NodeRuns {
  import opened Tasks
  import opened Reachability
  import opened Projection
  import opened GraphOps
  import opened TwoCore
  import opened TwoCoreSafety
  import opened TwoCoreTheorems
  import opened Programs

  datatype Instance = Instance(blocks: seq<Block>, timing: Timing)

  /** Block `index` of a program instance was handed to the cores with ids from `first`. */
  datatype Placement = Placement(pid: int, index: nat, block: Block, first: int) {
    function Tasks(): set<int> {
      Ids(block, first)
    }
  }

  /** `jumps` holds the target of a jump until it is taken, or -1. `log` records what has
      been handed out. */
  datatype Node = Node(sys: System, counter: int, programs: map<int, Instance>, index: map<int, nat>,
                       jumps: map<int, int>, log: seq<Placement>)

  const InitialNode := Node(TwoCore.Initial, 0, map[], map[], map[], [])

  predicate HasTask(c: Core, pid: int) {
    exists t :: t in c.graph.tasks && c.graph.tasks[t].task.pid == pid
  }

  predicate Jumped(n: Node, pid: int) {
    pid in n.jumps && n.jumps[pid] >= 0
  }

  /** Takes a pending jump. */
  function TakeJump(n: Node, pid: int): Node {
    if Jumped(n, pid) then n.(index := n.index[pid := n.jumps[pid]], jumps := n.jumps[pid := -1]) else n
  }

  function Upload(s: System, h: Graph): System
    requires Acyclic(h.tasks) && Closed(h.tasks)
  {
    s.(full := Merge(s.full, h),
       cpu := s.cpu.(graph := Merge(s.cpu.graph, PartialGraph(h, CPU))),
       qpu := s.qpu.(graph := Merge(s.qpu.graph, PartialGraph(h, QPU))))
  }

  predicate IsClassical(b: Block) {
    b.kind.CL? || b.kind.CC?
  }

  /** The guards of `find_next_tasks_for`, after a pending jump is taken. */
  predicate MayPlace(n: Node, pid: int)
    requires pid in n.programs && pid in n.index
  {
    && n.index[pid] < |n.programs[pid].blocks|
    && !HasTask(n.sys.cpu, pid)
    && (IsClassical(n.programs[pid].blocks[n.index[pid]]) || !HasTask(n.sys.qpu, pid))
  }

  function Place(n: Node, pid: int): Node
    requires pid in n.programs && pid in n.index && n.index[pid] < |n.programs[pid].blocks|
  {
    var b := n.programs[pid].blocks[n.index[pid]];
    var h := BlockGraph(b, pid, n.programs[pid].timing, n.counter);
    BlockIsDag(b, pid, n.programs[pid].timing, n.counter);
    n.(sys := Upload(n.sys, h), counter := n.counter + Size(b), index := n.index[pid := n.index[pid] + 1],
       log := n.log + [Placement(pid, n.index[pid], b, n.counter)])
  }

  /** `schedule_next_for`. */
  function Scheduled(n: Node, pid: int): Node
    requires pid in n.programs && pid in n.index
  {
    var m := TakeJump(n, pid);
    if MayPlace(m, pid) then Place(m, pid) else m
  }

  /** Submit: a process with a new pid. Jump: the host writes a jump target or resets it.
      Schedule: `schedule_next_for`, or one round of the loop of `schedule_all`. */
  datatype NodeEvent = Submit(pid: int, instance: Instance) | Jump(pid: int, target: int) | Schedule(pid: int) | Run(event: Event)

  ghost predicate Can(n: Node, e: NodeEvent) {
    match e
    case Submit(pid, _) => pid !in n.programs
    case Jump(pid, target) => pid in n.programs && target >= -1
    case Schedule(pid) => pid in n.programs && pid in n.index
    case Run(event) => !event.Add? && Enabled(n.sys, event) && Apply(n.sys, event).Some?
  }

  ghost function Next(n: Node, e: NodeEvent): Node
    requires Can(n, e)
  {
    match e
    case Submit(pid, instance) => n.(programs := n.programs[pid := instance], index := n.index[pid := 0])
    case Jump(pid, target) => n.(jumps := n.jumps[pid := target])
    case Schedule(pid) => Scheduled(n, pid)
    case Run(event) => n.(sys := Apply(n.sys, event).value)
  }

  ghost predicate NodeStep(ns: seq<Node>, es: seq<NodeEvent>, i: int)
    requires 0 <= i < |es| && |ns| == |es| + 1
  {
    Can(ns[i], es[i]) && ns[i + 1] == Next(ns[i], es[i])
  }

  ghost predicate IsNodeRun(ns: seq<Node>, es: seq<NodeEvent>) {
    && |ns| == |es| + 1 && ns[0] == InitialNode
    && forall i :: 0 <= i < |es| ==> NodeStep(ns, es, i)
  }

  // ----- the invariant -----

  /** The tasks of `l` are those the block builder made. */
  ghost predicate IsPlaced(n: Node, l: Placement) {
    && l.pid in n.programs && l.index < |n.programs[l.pid].blocks| && l.block == n.programs[l.pid].blocks[l.index]
    && l.first + Size(l.block) <= n.counter
    && forall t :: t in l.Tasks() ==>
         t in n.sys.full.tasks && n.sys.full.tasks[t] == InfoAt(l.block, l.pid, n.programs[l.pid].timing, l.first, t)
  }

  ghost predicate Owned(log: seq<Placement>, t: int) {
    exists l :: l in log && t in l.Tasks()
  }

  /** Before the first task of a later block of a process finishes, all tasks of an
      earlier one have. */
  ghost predicate Sequenced(log: seq<Placement>, h: seq<int>) {
    forall i, j, q :: 0 <= i < j < |log| && log[i].pid == log[j].pid && 0 <= q < |h| && h[q] in log[j].Tasks()
      ==> log[i].Tasks() <= Elements(h[..q])
  }

  ghost predicate EarlierDone(log: seq<Placement>, h: seq<int>) {
    forall i, j :: 0 <= i < j < |log| && log[i].pid == log[j].pid ==> log[i].Tasks() <= Elements(h)
  }

  ghost predicate Increasing(log: seq<Placement>) {
    forall i, j :: 0 <= i < j < |log| ==> log[i].first + Size(log[i].block) <= log[j].first
  }

  ghost predicate NodeInv(n: Node) {
    && SystemInv(n.sys)
    && n.programs.Keys == n.index.Keys
    && (forall l :: l in n.log ==> IsPlaced(n, l))
    && (forall t :: t in n.sys.full.tasks ==> t < n.counter && Owned(n.log, t))
    && Increasing(n.log)
    && EarlierDone(n.log, n.sys.history)
    && Sequenced(n.log, n.sys.history)
  }

  // ----- a core event -----

  lemma EventHistory(s: System, e: Event)
    requires Enabled(s, e) && !e.Add? && Apply(s, e).Some?
    ensures Apply(s, e).value.full == s.full
    ensures Apply(s, e).value.history ==
            if e.Finish? then s.history + [s.Of(e.proc).running.value] else s.history
  {
  }

  lemma RunningIsNew(s: System, proc: ProcessorType)
    requires SystemInv(s) && s.Of(proc).running.Some?
    ensures s.Of(proc).running.value !in s.history
  {
    StateFacts(s);
    assert CoreFacts(s, proc);
  }

  lemma EventEffect(s: System, e: Event)
    requires SystemInv(s) && Enabled(s, e) && !e.Add?
    ensures Apply(s, e).Some? && SystemInv(Apply(s, e).value) && Apply(s, e).value.full == s.full
    ensures var h := Apply(s, e).value.history;
            h == s.history || (|h| == |s.history| + 1 && h[..|s.history|] == s.history && h[|s.history|] !in s.history)
  {
    StepKeeps(s, e);
    EventHistory(s, e);
    if e.Finish? {
      RunningIsNew(s, e.proc);
    }
  }

  lemma SequencedGrows(log: seq<Placement>, h: seq<int>, h': seq<int>)
    requires EarlierDone(log, h) && Sequenced(log, h)
    requires h' == h || (|h'| == |h| + 1 && h'[..|h|] == h)
    ensures EarlierDone(log, h') && Sequenced(log, h')
  {
    forall i, j | 0 <= i < j < |log| && log[i].pid == log[j].pid ensures log[i].Tasks() <= Elements(h') {
      assert Elements(h) <= Elements(h') by {
        forall x | x in h ensures x in h' {
          var k :| 0 <= k < |h| && h[k] == x;
          assert h'[..|h|][k] == h'[k];
        }
      }
    }
    forall i, j, q | 0 <= i < j < |log| && log[i].pid == log[j].pid && 0 <= q < |h'| && h'[q] in log[j].Tasks()
      ensures log[i].Tasks() <= Elements(h'[..q])
    {
      if q < |h| {
        assert h'[..|h|][..q] == h'[..q] && h'[..|h|][q] == h'[q];
      }
    }
  }

  lemma RunKeepsNode(n: Node, e: Event)
    requires NodeInv(n) && Can(n, Run(e))
    ensures NodeInv(Next(n, Run(e)))
  {
    EventEffect(n.sys, e);
    var n' := Next(n, Run(e));
    SequencedGrows(n.log, n.sys.history, n'.sys.history);
    forall l | l in n'.log ensures IsPlaced(n', l) {
      assert IsPlaced(n, l);
    }
  }

  // ----- scheduling a block -----

  lemma EndsOnCpu(b: Block, pid: int, tm: Timing, first: int)
    ensures first in Ids(b, first) && Exit(b, first) in Ids(b, first)
    ensures TaskAt(b, pid, tm, first, first).Processor() == CPU &&
            TaskAt(b, pid, tm, first, Exit(b, first)).Processor() == CPU
    ensures forall t :: t in Ids(b, first) ==> TaskAt(b, pid, tm, first, t).pid == pid
  {
  }

  lemma PlacedAt(n: Node, l: Placement, t: int)
    requires NodeInv(n) && l in n.log && t in l.Tasks()
    ensures l.pid in n.programs && t in n.sys.full.tasks
    ensures n.sys.full.tasks[t] == InfoAt(l.block, l.pid, n.programs[l.pid].timing, l.first, t)
  {
    assert IsPlaced(n, l);
  }

  /** A task that is neither queued nor finished does not exist. */
  lemma QueuedOrDone(s: System, proc: ProcessorType, t: int)
    requires SystemInv(s) && t in s.full.tasks && Proc(s.full.tasks, t) == proc && t !in s.history
    ensures t in s.Of(proc).graph.tasks && s.Of(proc).graph.tasks[t].task == s.full.tasks[t].task
  {
    StateFacts(s);
    assert CoreFacts(s, proc);
    assert t in TasksOn(s.full.tasks, proc);
  }

  lemma CpuTaskIsDone(n: Node, l: Placement, t: int)
    requires NodeInv(n) && l in n.log && !HasTask(n.sys.cpu, l.pid) && t in l.Tasks()
    requires t == l.first || t == Exit(l.block, l.first)
    ensures t in n.sys.history
  {
    PlacedAt(n, l, t);
    EndsOnCpu(l.block, l.pid, n.programs[l.pid].timing, l.first);
    if t !in n.sys.history {
      QueuedOrDone(n.sys, CPU, t);
    }
  }

  lemma PlacedAncestor(n: Node, l: Placement, a: int, t: int)
    requires NodeInv(n) && l in n.log && t in n.sys.history && l.pid in n.programs
    requires Ancestor(BlockGraph(l.block, l.pid, n.programs[l.pid].timing, l.first).tasks, a, t)
    ensures a in n.sys.history
  {
    var h := BlockGraph(l.block, l.pid, n.programs[l.pid].timing, l.first).tasks;
    assert IsPlaced(n, l);
    AncestorGrows(h, n.sys.full.tasks, a, t);
    StateFacts(n.sys);
    HistoryClosed(n.sys.full.tasks, n.sys.history);
    ClosedUnderAncestor(n.sys.full.tasks, Elements(n.sys.history), a, t);
  }

  lemma OnlyTheEnds(b: Block, first: int, t: int)
    requires !Connected(b) && t in Ids(b, first)
    ensures t == first || t == Exit(b, first)
  {
  }

  /** Once the CPU core has no task of a process, the blocks it was given are done, and
      with them the tasks on the QPU core. */
  lemma BlockIsDone(n: Node, l: Placement, t: int)
    requires NodeInv(n) && l in n.log && !HasTask(n.sys.cpu, l.pid) && t in l.Tasks()
    ensures t in n.sys.history
  {
    var exit := Exit(l.block, l.first);
    if t == l.first || t == exit {
      CpuTaskIsDone(n, l, t);
    } else if !Connected(l.block) {
      OnlyTheEnds(l.block, l.first, t);
    } else {
      PlacedAt(n, l, t);
      CpuTaskIsDone(n, l, exit);
      ExitFollows(l.block, l.pid, n.programs[l.pid].timing, l.first, t);
      PlacedAncestor(n, l, t, exit);
    }
  }

  /** The guard on the QPU core always holds when it is reached. */
  lemma QpuGuardHolds(n: Node, pid: int)
    requires NodeInv(n) && !HasTask(n.sys.cpu, pid)
    ensures !HasTask(n.sys.qpu, pid)
  {
    if HasTask(n.sys.qpu, pid) {
      var t :| t in n.sys.qpu.graph.tasks && n.sys.qpu.graph.tasks[t].task.pid == pid;
      var l := Owner(n, QPU, t);
      BlockIsDone(n, l, t);
    }
  }

  lemma OwnerInLog(n: Node, t: int) returns (l: Placement)
    requires NodeInv(n) && t in n.sys.full.tasks
    ensures l in n.log && t in l.Tasks() && l.pid == n.sys.full.tasks[t].task.pid
  {
    assert Owned(n.log, t);
    l :| l in n.log && t in l.Tasks();
    PlacedAt(n, l, t);
    EndsOnCpu(l.block, l.pid, n.programs[l.pid].timing, l.first);
  }

  lemma QueuedFacts(s: System, proc: ProcessorType, t: int)
    requires SystemInv(s) && t in s.Of(proc).graph.tasks
    ensures t in s.full.tasks && t !in s.history && s.full.tasks[t].task == s.Of(proc).graph.tasks[t].task
  {
    StateFacts(s);
    assert CoreFacts(s, proc);
    assert t in TasksOn(s.full.tasks, proc);
  }

  lemma Owner(n: Node, proc: ProcessorType, t: int) returns (l: Placement)
    requires NodeInv(n) && t in n.sys.Of(proc).graph.tasks
    ensures l in n.log && t in l.Tasks() && l.pid == n.sys.Of(proc).graph.tasks[t].task.pid
    ensures t !in n.sys.history
  {
    QueuedFacts(n.sys, proc, t);
    l := OwnerInLog(n, t);
  }

  lemma HistoryIsOld(n: Node, t: int)
    requires NodeInv(n) && t in n.sys.history
    ensures t in n.sys.full.tasks && t < n.counter
  {
    StateFacts(n.sys);
    var k :| 0 <= k < |n.sys.history| && n.sys.history[k] == t;
  }

  lemma UploadKeepsSystem(s: System, h: Graph)
    requires SystemInv(s) && IsDag(h) && h.tasks.Keys !! s.full.tasks.Keys
    ensures Enabled(s, Add(h)) && Apply(s, Add(h)) == Some(Upload(s, h)) && SystemInv(Upload(s, h))
  {
    StepKeeps(s, Add(h));
  }

  /** The effect of `Place`: placement `l` is added. */
  ghost predicate Placing(n: Node, n': Node, l: Placement) {
    && l.pid in n.programs && l.index < |n.programs[l.pid].blocks| && l.block == n.programs[l.pid].blocks[l.index]
    && l.first == n.counter && n'.counter == n.counter + Size(l.block)
    && n'.log == n.log + [l] && n'.programs == n.programs && n'.index.Keys == n.index.Keys
    && SystemInv(n'.sys) && n'.sys.history == n.sys.history
    && n'.sys.full.tasks == n.sys.full.tasks + BlockGraph(l.block, l.pid, n.programs[l.pid].timing, l.first).tasks
    && n.sys.full.tasks.Keys !! l.Tasks()
  }

  lemma UploadFields(s: System, h: Graph)
    requires Acyclic(h.tasks) && Closed(h.tasks)
    ensures Upload(s, h).full.tasks == s.full.tasks + h.tasks && Upload(s, h).history == s.history
  {
  }

  lemma PlaceFields(n: Node, l: Placement)
    requires l.pid in n.programs && l.pid in n.index && l.index == n.index[l.pid] < |n.programs[l.pid].blocks|
    requires l.block == n.programs[l.pid].blocks[l.index] && l.first == n.counter
    ensures var h := BlockGraph(l.block, l.pid, n.programs[l.pid].timing, n.counter);
            && IsDag(h)
            && Place(n, l.pid) ==
               n.(sys := Upload(n.sys, h), counter := n.counter + Size(l.block),
                  index := n.index[l.pid := l.index + 1], log := n.log + [l])
  {
    BlockIsDag(l.block, l.pid, n.programs[l.pid].timing, n.counter);
  }

  lemma FreshIds(n: Node, b: Block)
    requires NodeInv(n)
    ensures n.sys.full.tasks.Keys !! Ids(b, n.counter)
  {
  }

  lemma UploadIsPlacing(n: Node, n': Node, l: Placement, h: Graph)
    requires NodeInv(n) && l.pid in n.programs && l.pid in n.index && l.index < |n.programs[l.pid].blocks|
    requires l.block == n.programs[l.pid].blocks[l.index] && l.first == n.counter
    requires h == BlockGraph(l.block, l.pid, n.programs[l.pid].timing, n.counter) && IsDag(h)
    requires n' == n.(sys := Upload(n.sys, h), counter := n.counter + Size(l.block),
                      index := n.index[l.pid := l.index + 1], log := n.log + [l])
    ensures Placing(n, n', l)
  {
    FreshIds(n, l.block);
    UploadKeepsSystem(n.sys, h);
    UploadFields(n.sys, h);
    assert n.index[l.pid := l.index + 1].Keys == n.index.Keys;
    assert n.sys.full.tasks.Keys !! l.Tasks();
  }

  lemma OldStaysPlaced(n: Node, n': Node, added: Placement, l: Placement)
    requires Placing(n, n', added) && IsPlaced(n, l)
    ensures IsPlaced(n', l)
  {
    forall t | t in l.Tasks() ensures t in n'.sys.full.tasks && n'.sys.full.tasks[t] == n.sys.full.tasks[t] {
      assert t !in added.Tasks();
    }
  }

  lemma NewIsPlaced(n: Node, n': Node, l: Placement)
    requires Placing(n, n', l)
    ensures IsPlaced(n', l)
  {
  }

  lemma StaysOwned(n: Node, n': Node, l: Placement, t: int)
    requires Placing(n, n', l) && t in n'.sys.full.tasks
    requires t in n.sys.full.tasks ==> t < n.counter && Owned(n.log, t)
    ensures t < n'.counter && Owned(n'.log, t)
  {
    if t in n.sys.full.tasks {
      var k :| k in n.log && t in k.Tasks();
      assert k in n'.log;
    } else {
      assert l in n'.log && t in l.Tasks();
    }
  }

  lemma EarlierStaysDone(log: seq<Placement>, l: Placement, h: seq<int>)
    requires EarlierDone(log, h)
    requires forall k :: k in log && k.pid == l.pid ==> k.Tasks() <= Elements(h)
    ensures EarlierDone(log + [l], h)
  {
    forall i, j | 0 <= i < j < |log + [l]| && (log + [l])[i].pid == (log + [l])[j].pid
      ensures (log + [l])[i].Tasks() <= Elements(h)
    {
      assert (log + [l])[i] == log[i] && log[i] in log;
    }
  }

  lemma StaysSequenced(log: seq<Placement>, l: Placement, h: seq<int>)
    requires Sequenced(log, h) && forall q :: 0 <= q < |h| ==> h[q] !in l.Tasks()
    ensures Sequenced(log + [l], h)
  {
  }

  lemma StaysIncreasing(log: seq<Placement>, l: Placement)
    requires Increasing(log) && forall k :: k in log ==> k.first + Size(k.block) <= l.first
    ensures Increasing(log + [l])
  {
  }

  lemma PlacingKeepsOrder(n: Node, n': Node, l: Placement)
    requires NodeInv(n) && Placing(n, n', l) && !HasTask(n.sys.cpu, l.pid)
    ensures Increasing(n'.log) && EarlierDone(n'.log, n'.sys.history) && Sequenced(n'.log, n'.sys.history)
  {
    var h := n.sys.history;
    forall k | k in n.log ensures k.first + Size(k.block) <= l.first {
      assert IsPlaced(n, k);
    }
    StaysIncreasing(n.log, l);
    forall k | k in n.log && k.pid == l.pid ensures k.Tasks() <= Elements(h) {
      forall t | t in k.Tasks() ensures t in h {
        BlockIsDone(n, k, t);
      }
    }
    EarlierStaysDone(n.log, l, h);
    forall q | 0 <= q < |h| ensures h[q] !in l.Tasks() {
      HistoryIsOld(n, h[q]);
    }
    StaysSequenced(n.log, l, h);
  }

  lemma PlacingKeeps(n: Node, n': Node, l: Placement)
    requires NodeInv(n) && Placing(n, n', l) && !HasTask(n.sys.cpu, l.pid)
    ensures NodeInv(n')
  {
    PlacingKeepsOrder(n, n', l);
    forall k | k in n'.log ensures IsPlaced(n', k) {
      if k in n.log {
        OldStaysPlaced(n, n', l, k);
      } else {
        NewIsPlaced(n, n', l);
      }
    }
    forall t | t in n'.sys.full.tasks ensures t < n'.counter && Owned(n'.log, t) {
      StaysOwned(n, n', l, t);
    }
  }

  lemma PlaceKeeps(n: Node, pid: int)
    requires NodeInv(n) && pid in n.programs && pid in n.index && MayPlace(n, pid)
    ensures NodeInv(Place(n, pid))
  {
    var b := n.programs[pid].blocks[n.index[pid]];
    var l := Placement(pid, n.index[pid], b, n.counter);
    PlaceFields(n, l);
    UploadIsPlacing(n, Place(n, pid), l, BlockGraph(b, pid, n.programs[pid].timing, n.counter));
    PlacingKeeps(n, Place(n, pid), l);
  }

  lemma SameSystemKeeps(n: Node, n': Node)
    requires NodeInv(n) && n'.sys == n.sys && n'.log == n.log && n'.counter == n.counter
    requires n'.programs.Keys == n'.index.Keys
    requires forall pid :: pid in n.programs ==> pid in n'.programs && n'.programs[pid] == n.programs[pid]
    ensures NodeInv(n')
  {
    forall l | l in n'.log ensures IsPlaced(n', l) {
      assert IsPlaced(n, l);
    }
  }

  lemma NodeStepKeeps(n: Node, e: NodeEvent)
    requires NodeInv(n) && Can(n, e)
    ensures NodeInv(Next(n, e))
  {
    match e
    case Submit(pid, instance) => SameSystemKeeps(n, Next(n, e));
    case Jump(pid, target) => SameSystemKeeps(n, Next(n, e));
    case Schedule(pid) =>
      var m := TakeJump(n, pid);
      SameSystemKeeps(n, m);
      if MayPlace(m, pid) {
        PlaceKeeps(m, pid);
      }
    case Run(event) => RunKeepsNode(n, event);
  }

  lemma InitialNodeInv()
    ensures NodeInv(InitialNode)
  {
    assert Inv(Views(map[], map[]), InitialNode.sys);
  }

  lemma {:induction false} NodeRunKeeps(ns: seq<Node>, es: seq<NodeEvent>, i: nat)
    requires IsNodeRun(ns, es) && i < |ns|
    ensures NodeInv(ns[i])
    decreases i
  {
    if i == 0 {
      InitialNodeInv();
    } else {
      NodeRunKeeps(ns, es, i - 1);
      assert NodeStep(ns, es, i - 1);
      NodeStepKeeps(ns[i - 1], es[i - 1]);
    }
  }

  // ----- what holds in every run -----

  /** Whenever `find_next_tasks_for` gets past its first guard, the QPU core has no task of
      the process either. */
  lemma SecondGuardAlwaysHolds(ns: seq<Node>, es: seq<NodeEvent>, i: nat, pid: int)
    requires IsNodeRun(ns, es) && i < |ns| && !HasTask(ns[i].sys.cpu, pid)
    ensures !HasTask(ns[i].sys.qpu, pid)
  {
    NodeRunKeeps(ns, es, i);
    QpuGuardHolds(ns[i], pid);
  }

  /** Task `t` belongs to placement `k`, of process `pid`, and has not finished. */
  ghost predicate IsOpen(log: seq<Placement>, h: seq<int>, k: nat, t: int, pid: int) {
    k < |log| && t in log[k].Tasks() && log[k].pid == pid && t !in h
  }

  lemma QueuedIsOpen(n: Node, proc: ProcessorType, t: int, pid: int) returns (k: nat)
    requires NodeInv(n) && t in n.sys.Of(proc).graph.tasks && n.sys.Of(proc).graph.tasks[t].task.pid == pid
    ensures IsOpen(n.log, n.sys.history, k, t, pid) && EarlierDone(n.log, n.sys.history)
  {
    var l := Owner(n, proc, t);
    k :| 0 <= k < |n.log| && n.log[k] == l;
  }

  lemma OpenIsLast(log: seq<Placement>, h: seq<int>, i: nat, j: nat, t: int, pid: int)
    requires EarlierDone(log, h) && IsOpen(log, h, i, t, pid) && j < |log| && log[j].pid == pid
    ensures j <= i
  {
    assert t !in Elements(h);
  }

  lemma OpenShareABlock(log: seq<Placement>, h: seq<int>, k: nat, l: nat, t: int, u: int, pid: int)
    requires EarlierDone(log, h) && IsOpen(log, h, k, t, pid) && IsOpen(log, h, l, u, pid)
    ensures k == l
  {
    OpenIsLast(log, h, k, l, t, pid);
    OpenIsLast(log, h, l, k, u, pid);
  }

  /** At any time, all queued tasks of a process, on either core, are from one block. */
  lemma OneBlockAtATime(ns: seq<Node>, es: seq<NodeEvent>, i: nat, p: ProcessorType, q: ProcessorType, t: int, u: int)
    returns (k: nat)
    requires IsNodeRun(ns, es) && i < |ns|
    requires t in ns[i].sys.Of(p).graph.tasks && u in ns[i].sys.Of(q).graph.tasks
    requires ns[i].sys.Of(p).graph.tasks[t].task.pid == ns[i].sys.Of(q).graph.tasks[u].task.pid
    ensures k < |ns[i].log| && t in ns[i].log[k].Tasks() && u in ns[i].log[k].Tasks()
    ensures ns[i].log[k].pid == ns[i].sys.Of(p).graph.tasks[t].task.pid
  {
    NodeRunKeeps(ns, es, i);
    var pid := ns[i].sys.Of(p).graph.tasks[t].task.pid;
    k := QueuedIsOpen(ns[i], p, t, pid);
    var l := QueuedIsOpen(ns[i], q, u, pid);
    OpenShareABlock(ns[i].log, ns[i].sys.history, k, l, t, u, pid);
  }
}
