/** The task graphs of blocks and of whole programs (qoala/runtime/task.py:761-1189), in
    closed form. The builders that compute them are in Builders.dfy. */
module Programs {
  import opened Tasks
  import opened Reachability
  import opened GraphOps
  import opened TaskGraphs
  import opened TwoCore

  /** Durations known to the node; None for each part leaves the tasks without a duration. */
  datatype Latencies = Latencies(hostInstr: int, hostPeer: int, qnosInstr: int)

  datatype Timing = Timing(ehi: Option<Latencies>, pairDuration: Option<int>)

  /** A block with its single instruction resolved: a subroutine call to the estimated time
      of the routine, a request call to the callback and the number of pairs. */
  datatype BlockKind =
    | CL(instructions: nat)
    | CC
    | QL(routineTime: int)
    | QC(waitAll: bool, callback: Option<string>, numPairs: int)

  datatype Block = Block(name: string, kind: BlockKind, deadlines: seq<(string, int)>)

  /** Sequential requests with no pairs leave the post-call task without predecessors. */
  predicate Connected(b: Block) {
    b.kind.QC? && !b.kind.waitAll ==> b.kind.numPairs >= 1
  }

  /** `range` of a negative number is empty. */
  function Pairs(b: Block): nat {
    if b.kind.QC? && !b.kind.waitAll && b.kind.numPairs > 0 then b.kind.numPairs else 0
  }

  function Size(b: Block): nat {
    match b.kind
    case CL(_) => 1
    case CC => 1
    case QL(_) => 3
    case QC(true, callback, _) => if callback.Some? then 4 else 3
    case QC(false, callback, _) => 2 + (if callback.Some? then 2 * Pairs(b) else Pairs(b))
  }

  /** The task a later block waits for. The first task of every block has offset 0. */
  function ExitOffset(b: Block): (r: nat)
    ensures r < Size(b)
  {
    match b.kind
    case QL(_) => 2
    case QC(_, _, _) => 1
    case _ => 0
  }

  function HostTime(tm: Timing): Option<int> {
    if tm.ehi.Some? then Some(tm.ehi.value.hostInstr) else None
  }

  function CallbackTime(tm: Timing): Option<int> {
    if tm.ehi.Some? then Some(tm.ehi.value.qnosInstr) else None
  }

  function Offsets(first: int, n: nat): (r: seq<int>)
    ensures |r| == n && forall i :: 0 <= i < n ==> r[i] == first + i
    ensures forall x :: x in r <==> first <= x < first + n
  {
    if n == 0 then [] else Offsets(first, n - 1) + [first + n - 1]
  }

  function Ids(b: Block, first: int): (r: set<int>)
    ensures forall t :: t in r <==> first <= t < first + Size(b)
  {
    Elements(Offsets(first, Size(b)))
  }

  /** The task with id `t`. The id of the pre-call task is the shared pointer. */
  function TaskAt(b: Block, pid: int, tm: Timing, first: int, t: int): Task
    requires t in Ids(b, first)
  {
    var k := t - first;
    match b.kind
    case CL(n) => Task(t, pid, HostLocal(b.name), if tm.ehi.Some? then Some(tm.ehi.value.hostInstr * n) else None)
    case CC => Task(t, pid, HostEvent(b.name), if tm.ehi.Some? then Some(tm.ehi.value.hostPeer) else None)
    case QL(time) =>
      if k == 0 then Task(t, pid, PreCall(b.name, first), HostTime(tm))
      else if k == 1 then Task(t, pid, LocalRoutine(b.name, first), if tm.ehi.Some? then Some(time) else None)
      else Task(t, pid, PostCall(b.name, first), HostTime(tm))
    case QC(waitAll, callback, n) =>
      if k == 0 then Task(t, pid, PreCall(b.name, first), HostTime(tm))
      else if k == 1 then Task(t, pid, PostCall(b.name, first), HostTime(tm))
      else if waitAll then
        if k == 2 then
          Task(t, pid, MultiPair(first), if tm.pairDuration.Some? then Some(tm.pairDuration.value * n) else None)
        else Task(t, pid, MultiPairCallback(callback.value, first), CallbackTime(tm))
      else if callback.None? then Task(t, pid, SinglePair(k - 2, first), tm.pairDuration)
      else if k % 2 == 0 then Task(t, pid, SinglePair((k - 2) / 2, first), tm.pairDuration)
      else Task(t, pid, SinglePairCallback(callback.value, (k - 3) / 2, first), CallbackTime(tm))
  }

  /** Task `p` is a predecessor of task `t` inside the block. */
  predicate IsPredecessor(b: Block, first: int, t: int, p: int) {
    var k := t - first;
    var j := p - first;
    && 0 <= j < Size(b)
    && match b.kind
       case CL(_) => false
       case CC => false
       case QL(_) => j == k - 1
       case QC(_, callback, _) =>
         if k == 0 then false
         else if k == 1 then j >= 2 && (callback.None? || j % 2 == 1)
         else if callback.None? || k % 2 == 0 then j == 0
         else j == k - 1
  }

  function PredsAt(b: Block, first: int, t: int): set<int> {
    set p | p in Ids(b, first) && IsPredecessor(b, first, t, p)
  }

  function InfoAt(b: Block, pid: int, tm: Timing, first: int, t: int): TaskInfo
    requires t in Ids(b, first)
  {
    OnlyTask(TaskAt(b, pid, tm, first, t)).(preds := PredsAt(b, first, t))
  }

  /** What `TaskGraphFromBlockBuilder.build` returns when its counter is `first`. */
  function BlockGraph(b: Block, pid: int, tm: Timing, first: int): (g: Graph)
    ensures g.tasks.Keys == Ids(b, first)
  {
    Graph(Offsets(first, Size(b)), map t | t in Ids(b, first) :: InfoAt(b, pid, tm, first, t))
  }

  // ----- one block -----

  function Level(kind: TaskKind): int {
    match kind
    case PreCall(_, _) => 0
    case SinglePairCallback(_, _, _) => 2
    case MultiPairCallback(_, _) => 2
    case PostCall(_, _) => 3
    case _ => 1
  }

  lemma BlockEdge(b: Block, pid: int, tm: Timing, first: int, t: int, x: int)
    requires t in Ids(b, first) && x in PredsAt(b, first, t)
    ensures Level(TaskAt(b, pid, tm, first, x).kind) < Level(TaskAt(b, pid, tm, first, t).kind)
  {
  }

  /** For every number of pairs, the graph of a block is a DAG with the ids from `first`. */
  lemma BlockIsDag(b: Block, pid: int, tm: Timing, first: int)
    ensures IsDag(BlockGraph(b, pid, tm, first))
  {
    var m := BlockGraph(b, pid, tm, first).tasks;
    var rank := map t | t in Ids(b, first) :: Level(TaskAt(b, pid, tm, first, t).kind);
    forall t, x | t in m && x in m[t].preds ensures x in m && rank[x] < rank[t] {
      BlockEdge(b, pid, tm, first, t, x);
    }
    RankedIsAcyclic(m, rank);
  }

  function Exit(b: Block, first: int): int {
    first + ExitOffset(b)
  }

  lemma BlockStep(b: Block, pid: int, tm: Timing, first: int, p: int, t: int)
    requires t in Ids(b, first) && IsPredecessor(b, first, t, p)
    ensures Ancestor(BlockGraph(b, pid, tm, first).tasks, p, t)
  {
    EdgePath(BlockGraph(b, pid, tm, first).tasks, p, t);
  }

  lemma BlockTwoSteps(b: Block, pid: int, tm: Timing, first: int, p: int, q: int, t: int)
    requires t in Ids(b, first) && IsPredecessor(b, first, q, p) && IsPredecessor(b, first, t, q)
    ensures Ancestor(BlockGraph(b, pid, tm, first).tasks, p, t)
  {
    BlockStep(b, pid, tm, first, p, q);
    BlockStep(b, pid, tm, first, q, t);
    AncestorTransitive(BlockGraph(b, pid, tm, first).tasks, p, q, t);
  }

  lemma EntryPrecedes(b: Block, pid: int, tm: Timing, first: int, t: int)
    requires Connected(b) && t in Ids(b, first) && t != first
    ensures Ancestor(BlockGraph(b, pid, tm, first).tasks, first, t)
  {
    if IsPredecessor(b, first, t, first) {
      BlockStep(b, pid, tm, first, first, t);
    } else if b.kind.QC? && t == first + 1 && b.kind.callback.Some? {
      BlockTwoSteps(b, pid, tm, first, first, first + 2, first + 3);
      BlockStep(b, pid, tm, first, first + 3, t);
      AncestorTransitive(BlockGraph(b, pid, tm, first).tasks, first, first + 3, t);
    } else {
      BlockTwoSteps(b, pid, tm, first, first, if b.kind.QL? then first + 1 else if t == first + 1 then first + 2 else t - 1, t);
    }
  }

  lemma ExitFollows(b: Block, pid: int, tm: Timing, first: int, t: int)
    requires Connected(b) && t in Ids(b, first) && t != Exit(b, first)
    ensures Ancestor(BlockGraph(b, pid, tm, first).tasks, t, Exit(b, first))
  {
    var exit := Exit(b, first);
    if t == first {
      EntryPrecedes(b, pid, tm, first, exit);
    } else if IsPredecessor(b, first, exit, t) {
      BlockStep(b, pid, tm, first, t, exit);
    } else {
      BlockTwoSteps(b, pid, tm, first, t, t + 1, exit);
    }
  }

  lemma DisconnectedExit(b: Block, pid: int, tm: Timing, first: int)
    requires !Connected(b)
    ensures BlockGraph(b, pid, tm, first).tasks[Exit(b, first)].preds == {}
    ensures !Ancestor(BlockGraph(b, pid, tm, first).tasks, first, Exit(b, first))
  {
    var m := BlockGraph(b, pid, tm, first).tasks;
    var exit := Exit(b, first);
    assert PredsAt(b, first, exit) == {};
    if Ancestor(m, first, exit) {
      ClosedUnderAncestor(m, {exit}, first, exit);
    }
  }

  /** Inside a block, the first task precedes every other and the exit task follows every
      other, unless the block is a sequential request without pairs. */
  lemma SourceAndSinkIffConnected(b: Block, pid: int, tm: Timing, first: int)
    ensures Connected(b) <==>
              forall t :: t in Ids(b, first) && t != first ==> Ancestor(BlockGraph(b, pid, tm, first).tasks, first, t)
    ensures Connected(b) <==>
              forall t :: t in Ids(b, first) && t != Exit(b, first) ==>
                Ancestor(BlockGraph(b, pid, tm, first).tasks, t, Exit(b, first))
  {
    if Connected(b) {
      forall t | t in Ids(b, first) && t != first ensures Ancestor(BlockGraph(b, pid, tm, first).tasks, first, t) {
        EntryPrecedes(b, pid, tm, first, t);
      }
      forall t | t in Ids(b, first) && t != Exit(b, first)
        ensures Ancestor(BlockGraph(b, pid, tm, first).tasks, t, Exit(b, first))
      {
        ExitFollows(b, pid, tm, first, t);
      }
    } else {
      DisconnectedExit(b, pid, tm, first);
      assert first in Ids(b, first) && Exit(b, first) in Ids(b, first) && Exit(b, first) != first;
    }
  }

  // ----- whole programs -----

  /** Deadlines relative to blocks become relative to tasks; None models a KeyError. */
  function RelDeadlines(names: map<string, int>, deadlines: seq<(string, int)>): Option<map<int, int>> {
    if deadlines == [] then Some(map[])
    else
      var rest := RelDeadlines(names, deadlines[..|deadlines| - 1]);
      var last := deadlines[|deadlines| - 1];
      if rest.None? || last.0 !in names then None else Some(rest.value[names[last.0] := last.1])
  }

  /** The state of the program builder. */
  datatype Progress = Progress(graph: Graph, names: map<string, int>, prev: Option<int>, counter: int)

  /** A classical block may name itself, since it is recorded before its deadlines are read;
      receive and request blocks ignore their deadlines. */
  function DeadlinesOf(p: Progress, b: Block): Option<map<int, int>> {
    match b.kind
    case CL(_) => RelDeadlines(p.names[b.name := p.counter], b.deadlines)
    case QL(_) => RelDeadlines(p.names, b.deadlines)
    case _ => Some(map[])
  }

  function Linkup(info: TaskInfo, prev: Option<int>, rel: map<int, int>): TaskInfo {
    info.(preds := info.preds + (if prev.Some? then {prev.value} else {}), relDeadlines := rel)
  }

  function Placed(b: Block, pid: int, tm: Timing, first: int, prev: Option<int>, rel: map<int, int>): Graph {
    var g := BlockGraph(b, pid, tm, first);
    assert first in Ids(b, first);
    g.(tasks := g.tasks[first := Linkup(g.tasks[first], prev, rel)])
  }

  function AddBlock(p: Progress, b: Block, pid: int, tm: Timing): Option<Progress> {
    var rel := DeadlinesOf(p, b);
    if rel.None? then None
    else
      Some(Progress(Merge(p.graph, Placed(b, pid, tm, p.counter, p.prev, rel.value)),
                    p.names[b.name := Exit(b, p.counter)], Some(Exit(b, p.counter)), p.counter + Size(b)))
  }

  function BuildBlocks(blocks: seq<Block>, pid: int, tm: Timing, first: int): Option<Progress> {
    if blocks == [] then Some(Progress(EmptyGraph, map[], None, first))
    else
      var before := BuildBlocks(blocks[..|blocks| - 1], pid, tm, first);
      if before.None? then None else AddBlock(before.value, blocks[|blocks| - 1], pid, tm)
  }

  /** What `QoalaGraphFromProgramBuilder.build` returns. */
  function ProgramGraph(blocks: seq<Block>, pid: int, tm: Timing, first: int): Option<Graph> {
    var built := BuildBlocks(blocks, pid, tm, first);
    if built.None? then None else Some(WithSuccessors(built.value.graph))
  }

  /** The id of the first task of block `i`. */
  function FirstId(blocks: seq<Block>, first: int, i: nat): (r: int)
    requires i <= |blocks|
    ensures r >= first
  {
    if i == 0 then first else FirstId(blocks, first, i - 1) + Size(blocks[i - 1])
  }

  lemma {:induction false} FirstIdOfPrefix(blocks: seq<Block>, first: int, n: nat, i: nat)
    requires i <= n <= |blocks|
    ensures FirstId(blocks[..n], first, i) == FirstId(blocks, first, i)
  {
    if i > 0 {
      FirstIdOfPrefix(blocks, first, n, i - 1);
    }
  }

  lemma {:induction false} FirstIdsRise(blocks: seq<Block>, first: int, i: nat, j: nat)
    requires i < j <= |blocks|
    ensures FirstId(blocks, first, i) + Size(blocks[i]) <= FirstId(blocks, first, j)
  {
    if j > i + 1 {
      FirstIdsRise(blocks, first, i, j - 1);
    }
  }

  lemma {:induction false} BlockOf(blocks: seq<Block>, first: int, n: nat, t: int) returns (i: nat)
    requires n <= |blocks| && first <= t < FirstId(blocks, first, n)
    ensures i < n && t in Ids(blocks[i], FirstId(blocks, first, i))
  {
    if t >= FirstId(blocks, first, n - 1) {
      i := n - 1;
    } else {
      i := BlockOf(blocks, first, n - 1, t);
    }
  }

  /** The precedences of the task `t` of block `i`. */
  function ProgramPreds(blocks: seq<Block>, first: int, i: nat, t: int): set<int>
    requires i < |blocks|
  {
    var start := FirstId(blocks, first, i);
    PredsAt(blocks[i], start, t) +
    if t == start && i > 0 then {Exit(blocks[i - 1], FirstId(blocks, first, i - 1))} else {}
  }

  /** Task `t` of block `i` is there, with its precedences. */
  ghost predicate IsTaskOf(blocks: seq<Block>, pid: int, tm: Timing, first: int, m: TaskMap, i: nat, t: int)
    requires i < |blocks| && t in Ids(blocks[i], FirstId(blocks, first, i))
  {
    && t in m && m[t].preds == ProgramPreds(blocks, first, i, t)
    && m[t].task == TaskAt(blocks[i], pid, tm, FirstId(blocks, first, i), t)
  }

  /** The tasks and precedences of the blocks, chained exit to entry. */
  ghost predicate Chained(blocks: seq<Block>, pid: int, tm: Timing, first: int, m: TaskMap) {
    && (forall t :: t in m <==> first <= t < FirstId(blocks, first, |blocks|))
    && (forall i, t :: 0 <= i < |blocks| && t in Ids(blocks[i], FirstId(blocks, first, i)) ==>
          IsTaskOf(blocks, pid, tm, first, m, i, t))
  }

  lemma ChainedAt(blocks: seq<Block>, pid: int, tm: Timing, first: int, m: TaskMap, i: nat, t: int)
    requires Chained(blocks, pid, tm, first, m) && i < |blocks| && t in Ids(blocks[i], FirstId(blocks, first, i))
    ensures t in m && m[t].preds == ProgramPreds(blocks, first, i, t)
    ensures m[t].task == TaskAt(blocks[i], pid, tm, FirstId(blocks, first, i), t)
  {
  }
}
