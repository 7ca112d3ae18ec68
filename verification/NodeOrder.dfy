/** Without jumps, scheduling block by block refines the graph of the whole program. */
module NodeOrder {
  import opened Tasks
  import opened Reachability
  import opened GraphOps
  import opened TwoCore
  import opened TwoCoreSafety
  import opened Programs
  import opened ProgramTheorems
  import opened NodeRuns

  ghost predicate JumpFree(es: seq<NodeEvent>) {
    forall i :: 0 <= i < |es| && es[i].Jump? ==> es[i].target == -1
  }

  ghost function Count(log: seq<Placement>, pid: int): nat {
    if log == [] then 0 else Count(log[..|log| - 1], pid) + if log[|log| - 1].pid == pid then 1 else 0
  }

  /** Every process was given its blocks one by one, starting with the first. */
  ghost predicate Consecutive(log: seq<Placement>) {
    forall j :: 0 <= j < |log| ==> log[j].index == Count(log[..j], log[j].pid)
  }

  ghost predicate OrderInv(n: Node) {
    && (forall pid :: pid in n.jumps ==> n.jumps[pid] == -1)
    && Consecutive(n.log)
    && (forall pid :: pid in n.index ==> n.index[pid] == Count(n.log, pid))
  }

  lemma CountAppend(log: seq<Placement>, l: Placement, pid: int)
    ensures Count(log + [l], pid) == Count(log, pid) + if l.pid == pid then 1 else 0
  {
    assert (log + [l])[..|log|] == log;
  }

  lemma ConsecutiveAppend(log: seq<Placement>, l: Placement)
    requires Consecutive(log) && l.index == Count(log, l.pid)
    ensures Consecutive(log + [l])
  {
    forall j | 0 <= j < |log + [l]| ensures (log + [l])[j].index == Count((log + [l])[..j], (log + [l])[j].pid) {
      if j < |log| {
        assert (log + [l])[..j] == log[..j];
      } else {
        assert (log + [l])[..j] == log;
      }
    }
  }

  lemma {:induction false} NotInEmptyCount(log: seq<Placement>, pid: int)
    requires forall l :: l in log ==> l.pid != pid
    ensures Count(log, pid) == 0
  {
    if log == [] {
    } else {
      assert log[|log| - 1] in log;
      assert forall l :: l in log[..|log| - 1] ==> l in log;
      NotInEmptyCount(log[..|log| - 1], pid);
    }
  }

  lemma PlaceKeepsOrderInv(n: Node, pid: int)
    requires NodeInv(n) && OrderInv(n) && pid in n.programs && pid in n.index && n.index[pid] < |n.programs[pid].blocks|
    ensures OrderInv(Place(n, pid))
  {
    var l := Placement(pid, n.index[pid], n.programs[pid].blocks[n.index[pid]], n.counter);
    PlaceFields(n, l);
    var n' := Place(n, pid);
    ConsecutiveAppend(n.log, l);
    forall p | p in n'.index ensures n'.index[p] == Count(n'.log, p) {
      CountAppend(n.log, l, p);
    }
  }

  lemma SubmitKeepsOrderInv(n: Node, pid: int, instance: Instance)
    requires NodeInv(n) && OrderInv(n) && pid !in n.programs
    ensures OrderInv(Next(n, Submit(pid, instance)))
  {
    forall l | l in n.log ensures l.pid != pid {
      assert IsPlaced(n, l);
    }
    NotInEmptyCount(n.log, pid);
  }

  lemma OrderStep(n: Node, e: NodeEvent)
    requires NodeInv(n) && OrderInv(n) && Can(n, e) && (e.Jump? ==> e.target == -1)
    ensures OrderInv(Next(n, e))
  {
    match e
    case Submit(pid, instance) => SubmitKeepsOrderInv(n, pid, instance);
    case Jump(pid, target) =>
    case Schedule(pid) =>
      assert TakeJump(n, pid) == n;
      if MayPlace(n, pid) {
        PlaceKeepsOrderInv(n, pid);
      }
    case Run(event) =>
  }

  /** A step that takes no jump. */
  ghost predicate IsStep(n: Node, e: NodeEvent, n': Node) {
    Can(n, e) && n' == Next(n, e) && (e.Jump? ==> e.target == -1)
  }

  lemma OrderStepTo(n: Node, e: NodeEvent, n': Node)
    requires NodeInv(n) && OrderInv(n) && IsStep(n, e, n')
    ensures OrderInv(n')
  {
    OrderStep(n, e);
  }

  lemma InitialOrder(n: Node)
    requires n == InitialNode
    ensures OrderInv(n)
  {
  }

  lemma {:induction false} OrderRun(ns: seq<Node>, es: seq<NodeEvent>, i: nat)
    requires IsNodeRun(ns, es) && JumpFree(es) && i < |ns|
    ensures OrderInv(ns[i])
    decreases i
  {
    if i == 0 {
      InitialOrder(ns[0]);
    } else {
      NodeRunKeeps(ns, es, i - 1);
      OrderRun(ns, es, i - 1);
      var e := StepOf(ns, es, i - 1);
      OrderStepTo(ns[i - 1], e, ns[i]);
    }
  }

  lemma StepOf(ns: seq<Node>, es: seq<NodeEvent>, i: nat) returns (e: NodeEvent)
    requires IsNodeRun(ns, es) && JumpFree(es) && i < |es|
    ensures IsStep(ns[i], e, ns[i + 1])
  {
    e := es[i];
    assert NodeStep(ns, es, i);
  }

  // ----- consequences for the log -----

  lemma {:induction false} CountGrows(log: seq<Placement>, i: nat, j: nat, pid: int)
    requires i < j <= |log| && log[i].pid == pid
    ensures Count(log[..i], pid) < Count(log[..j], pid)
    decreases j
  {
    assert log[..j][..j - 1] == log[..j - 1];
    if j > i + 1 {
      CountGrows(log, i, j - 1, pid);
    }
  }

  lemma LaterHasHigherIndex(log: seq<Placement>, i: nat, j: nat)
    requires Consecutive(log) && i < j < |log| && log[i].pid == log[j].pid
    ensures log[i].index < log[j].index
  {
    CountGrows(log, i, j, log[i].pid);
  }

  lemma {:induction false} FindIndex(log: seq<Placement>, n: nat, pid: int, b: nat) returns (i: nat)
    requires Consecutive(log) && n <= |log| && b < Count(log[..n], pid)
    ensures i < n && log[i].pid == pid && log[i].index == b
    decreases n
  {
    assert n > 0;
    assert log[..n][..n - 1] == log[..n - 1];
    if b < Count(log[..n - 1], pid) {
      i := FindIndex(log, n - 1, pid, b);
    } else {
      i := n - 1;
    }
  }

  // ----- from the tasks that ran to the tasks of the whole program -----

  /** The task of the whole program that task `t` of placement `l` stands for. */
  function Whole(l: Placement, blocks: seq<Block>, first: int, t: int): int
    requires l.index <= |blocks|
  {
    FirstId(blocks, first, l.index) + (t - l.first)
  }

  function WholeOf(log: seq<Placement>, pid: int, blocks: seq<Block>, first: int, t: int): Option<int> {
    if log == [] then None
    else
      var l := log[|log| - 1];
      if l.pid == pid && t in l.Tasks() && l.index <= |blocks| then Some(Whole(l, blocks, first, t))
      else WholeOf(log[..|log| - 1], pid, blocks, first, t)
  }

  /** The finished tasks of one process, in order, as tasks of its whole program. */
  function FinishOrder(h: seq<int>, log: seq<Placement>, pid: int, blocks: seq<Block>, first: int): seq<int> {
    if h == [] then []
    else
      var w := WholeOf(log, pid, blocks, first, h[|h| - 1]);
      FinishOrder(h[..|h| - 1], log, pid, blocks, first) + if w.Some? then [w.value] else []
  }

  lemma {:induction false} WholeOfOwned(log: seq<Placement>, k: nat, pid: int, blocks: seq<Block>, first: int, t: int)
    requires Increasing(log) && k < |log| && t in log[k].Tasks() && log[k].pid == pid && log[k].index <= |blocks|
    ensures WholeOf(log, pid, blocks, first, t) == Some(Whole(log[k], blocks, first, t))
  {
    var last := |log| - 1;
    if k < last {
      assert log[k].first + Size(log[k].block) <= log[last].first;
      assert t !in log[last].Tasks();
      var front := log[..last];
      assert Increasing(front);
      WholeOfOwned(front, k, pid, blocks, first, t);
    }
  }

  lemma {:induction false} OwnerOfWhole(log: seq<Placement>, pid: int, blocks: seq<Block>, first: int, t: int)
    returns (k: nat)
    requires WholeOf(log, pid, blocks, first, t).Some?
    ensures k < |log| && t in log[k].Tasks() && log[k].pid == pid && log[k].index <= |blocks|
    ensures WholeOf(log, pid, blocks, first, t) == Some(Whole(log[k], blocks, first, t))
  {
    var l := log[|log| - 1];
    if l.pid == pid && t in l.Tasks() && l.index <= |blocks| {
      k := |log| - 1;
    } else {
      k := OwnerOfWhole(log[..|log| - 1], pid, blocks, first, t);
    }
  }

  lemma {:induction false} FinishOrderHas(h: seq<int>, log: seq<Placement>, pid: int, blocks: seq<Block>, first: int,
                                          w: int)
    ensures w in FinishOrder(h, log, pid, blocks, first) <==>
            exists q :: 0 <= q < |h| && WholeOf(log, pid, blocks, first, h[q]) == Some(w)
  {
    if h == [] {
    } else {
      var front := h[..|h| - 1];
      FinishOrderHas(front, log, pid, blocks, first, w);
      if w in FinishOrder(front, log, pid, blocks, first) {
        var q :| 0 <= q < |front| && WholeOf(log, pid, blocks, first, front[q]) == Some(w);
        assert h[q] == front[q];
      }
      forall q | 0 <= q < |h| && WholeOf(log, pid, blocks, first, h[q]) == Some(w)
        ensures w in FinishOrder(h, log, pid, blocks, first)
      {
        if q < |h| - 1 {
          assert front[q] == h[q];
        }
      }
    }
  }

  // ----- the order is topological -----

  /** What the proof needs of a node: the placements of `pid` are blocks of its program,
      and no task finished before its predecessors in its block. */
  ghost predicate Journal(log: seq<Placement>, h: seq<int>, pid: int, blocks: seq<Block>) {
    && NoDup(h) && Increasing(log) && Consecutive(log) && Sequenced(log, h)
    && (forall k :: 0 <= k < |log| && log[k].pid == pid ==>
          log[k].index < |blocks| && log[k].block == blocks[log[k].index])
    && (forall k, q :: 0 <= k < |log| && 0 <= q < |h| && h[q] in log[k].Tasks() ==>
          PredsAt(log[k].block, log[k].first, h[q]) <= Elements(h[..q]))
  }

  lemma NodeFacts(n: Node)
    requires NodeInv(n)
    ensures NoDup(n.sys.history) && Increasing(n.log) && Sequenced(n.log, n.sys.history)
  {
    StateFacts(n.sys);
  }

  lemma FinishedAfterBlockPreds(n: Node, k: nat, q: nat)
    requires NodeInv(n) && k < |n.log| && q < |n.sys.history| && n.sys.history[q] in n.log[k].Tasks()
    ensures PredsAt(n.log[k].block, n.log[k].first, n.sys.history[q]) <= Elements(n.sys.history[..q])
  {
    StateFacts(n.sys);
    PlacedAt(n, n.log[k], n.sys.history[q]);
  }

  lemma LogBlock(n: Node, k: nat)
    requires NodeInv(n) && k < |n.log|
    ensures var l := n.log[k];
            l.pid in n.programs && l.index < |n.programs[l.pid].blocks| && l.block == n.programs[l.pid].blocks[l.index]
  {
    assert IsPlaced(n, n.log[k]);
  }

  lemma NodeJournal(n: Node, pid: int)
    requires NodeInv(n) && OrderInv(n) && pid in n.programs
    ensures Journal(n.log, n.sys.history, pid, n.programs[pid].blocks)
  {
    NodeFacts(n);
    forall k | 0 <= k < |n.log| && n.log[k].pid == pid
      ensures n.log[k].index < |n.programs[pid].blocks| && n.log[k].block == n.programs[pid].blocks[n.log[k].index]
    {
      LogBlock(n, k);
    }
    forall k, q | 0 <= k < |n.log| && 0 <= q < |n.sys.history| && n.sys.history[q] in n.log[k].Tasks()
      ensures PredsAt(n.log[k].block, n.log[k].first, n.sys.history[q]) <= Elements(n.sys.history[..q])
    {
      FinishedAfterBlockPreds(n, k, q);
    }
  }

  lemma WholeRange(l: Placement, blocks: seq<Block>, first: int, t: int)
    requires l.index < |blocks| && l.block == blocks[l.index] && t in l.Tasks()
    ensures Whole(l, blocks, first, t) in Ids(blocks[l.index], FirstId(blocks, first, l.index))
  {
  }

  lemma RangesDiffer(blocks: seq<Block>, first: int, i: nat, j: nat, w: int)
    requires i < |blocks| && j < |blocks|
    requires w in Ids(blocks[i], FirstId(blocks, first, i)) && w in Ids(blocks[j], FirstId(blocks, first, j))
    ensures i == j
  {
    if i < j {
      FirstIdsRise(blocks, first, i, j);
    } else if j < i {
      FirstIdsRise(blocks, first, j, i);
    }
  }

  lemma WholeDiffers(log: seq<Placement>, blocks: seq<Block>, first: int, k: nat, j: nat, t: int, u: int)
    requires Consecutive(log) && k < |log| && j < |log| && log[k].pid == log[j].pid
    requires t in log[k].Tasks() && u in log[j].Tasks() && t != u
    requires log[k].index < |blocks| && log[k].block == blocks[log[k].index]
    requires log[j].index < |blocks| && log[j].block == blocks[log[j].index]
    ensures Whole(log[k], blocks, first, t) != Whole(log[j], blocks, first, u)
  {
    WholeRange(log[k], blocks, first, t);
    WholeRange(log[j], blocks, first, u);
    if Whole(log[k], blocks, first, t) == Whole(log[j], blocks, first, u) {
      RangesDiffer(blocks, first, log[k].index, log[j].index, Whole(log[k], blocks, first, t));
      if k < j {
        LaterHasHigherIndex(log, k, j);
      } else if j < k {
        LaterHasHigherIndex(log, j, k);
      }
    }
  }

  lemma PredecessorsShift(b: Block, first: int, other: int, t: int, p: int)
    requires IsPredecessor(b, first, t, p)
    ensures IsPredecessor(b, other, t - first + other, p - first + other)
  {
  }

  lemma AtPosition(h: seq<int>, q: nat, x: int) returns (p: nat)
    requires q <= |h| && x in Elements(h[..q])
    ensures p < q && h[p] == x
  {
    p :| 0 <= p < q && h[..q][p] == x;
  }

  /** A precedence inside a block. */
  lemma InnerPredecessor(l: Placement, h: seq<int>, blocks: seq<Block>, first: int, q: nat, v: int) returns (p: nat)
    requires l.index <= |blocks| && q < |h| && h[q] in l.Tasks()
    requires PredsAt(l.block, l.first, h[q]) <= Elements(h[..q])
    requires v in PredsAt(l.block, FirstId(blocks, first, l.index), Whole(l, blocks, first, h[q]))
    ensures p < q && h[p] in l.Tasks() && Whole(l, blocks, first, h[p]) == v
  {
    var start := FirstId(blocks, first, l.index);
    var x := v - start + l.first;
    PredecessorsShift(l.block, start, l.first, h[q] - l.first + start, v);
    assert x in PredsAt(l.block, l.first, h[q]);
    p := AtPosition(h, q, x);
  }

  /** The precedence between two blocks. */
  lemma OuterPredecessor(log: seq<Placement>, h: seq<int>, k: nat, q: nat) returns (j: nat, p: nat)
    requires Consecutive(log) && Sequenced(log, h) && k < |log| && q < |h| && h[q] in log[k].Tasks() && log[k].index > 0
    ensures p < q && j < k && log[j].pid == log[k].pid && log[j].index == log[k].index - 1
    ensures h[p] == Exit(log[j].block, log[j].first)
  {
    j := FindIndex(log, k, log[k].pid, log[k].index - 1);
    var exit := Exit(log[j].block, log[j].first);
    assert exit in log[j].Tasks();
    assert log[j].Tasks() <= Elements(h[..q]);
    p := AtPosition(h, q, exit);
  }

  lemma JournalAt(log: seq<Placement>, h: seq<int>, pid: int, blocks: seq<Block>, k: nat, q: nat)
    requires Journal(log, h, pid, blocks) && k < |log| && q < |h| && log[k].pid == pid && h[q] in log[k].Tasks()
    ensures log[k].index < |blocks| && log[k].block == blocks[log[k].index]
    ensures PredsAt(log[k].block, log[k].first, h[q]) <= Elements(h[..q])
    ensures Consecutive(log) && Sequenced(log, h) && Increasing(log)
  {
  }

  lemma JournalBlock(log: seq<Placement>, h: seq<int>, pid: int, blocks: seq<Block>, k: nat)
    requires Journal(log, h, pid, blocks) && k < |log| && log[k].pid == pid
    ensures log[k].index < |blocks| && log[k].block == blocks[log[k].index]
    ensures Consecutive(log) && Increasing(log) && NoDup(h)
  {
  }

  lemma PredecessorRan(log: seq<Placement>, h: seq<int>, pid: int, blocks: seq<Block>, first: int, q: nat, k: nat,
                       v: int)
    returns (p: nat)
    requires Journal(log, h, pid, blocks) && q < |h| && k < |log| && log[k].pid == pid && h[q] in log[k].Tasks()
    requires log[k].index < |blocks|
    requires v in ProgramPreds(blocks, first, log[k].index, Whole(log[k], blocks, first, h[q]))
    ensures p < q && WholeOf(log, pid, blocks, first, h[p]) == Some(v)
  {
    JournalAt(log, h, pid, blocks, k, q);
    var l := log[k];
    if v in PredsAt(l.block, FirstId(blocks, first, l.index), Whole(l, blocks, first, h[q])) {
      p := InnerPredecessor(l, h, blocks, first, q, v);
      WholeOfOwned(log, k, pid, blocks, first, h[p]);
    } else {
      p := PredecessorInEarlierBlock(log, h, pid, blocks, first, q, k, v);
    }
  }

  lemma PredecessorInEarlierBlock(log: seq<Placement>, h: seq<int>, pid: int, blocks: seq<Block>, first: int, q: nat,
                                  k: nat, v: int) returns (p: nat)
    requires Journal(log, h, pid, blocks) && q < |h| && k < |log| && log[k].pid == pid && h[q] in log[k].Tasks()
    requires 0 < log[k].index < |blocks|
    requires v == Exit(blocks[log[k].index - 1], FirstId(blocks, first, log[k].index - 1))
    ensures p < q && WholeOf(log, pid, blocks, first, h[p]) == Some(v)
  {
    JournalAt(log, h, pid, blocks, k, q);
    var j;
    j, p := OuterPredecessor(log, h, k, q);
    ExitOfEarlier(log, h, pid, blocks, first, j, log[k].index - 1, h[p], v);
  }

  lemma ExitOfEarlier(log: seq<Placement>, h: seq<int>, pid: int, blocks: seq<Block>, first: int, j: nat, b: nat,
                      t: int, v: int)
    requires Journal(log, h, pid, blocks) && j < |log| && log[j].pid == pid && log[j].index == b < |blocks|
    requires t == Exit(log[j].block, log[j].first) && v == Exit(blocks[b], FirstId(blocks, first, b))
    ensures WholeOf(log, pid, blocks, first, t) == Some(v)
  {
    JournalBlock(log, h, pid, blocks, j);
    assert t in log[j].Tasks();
    WholeOfOwned(log, j, pid, blocks, first, t);
  }

  lemma WholeIsNew(log: seq<Placement>, h: seq<int>, pid: int, blocks: seq<Block>, first: int, p: nat, q: nat)
    requires Journal(log, h, pid, blocks) && p < q < |h| && WholeOf(log, pid, blocks, first, h[p]).Some?
    ensures WholeOf(log, pid, blocks, first, h[p]) != WholeOf(log, pid, blocks, first, h[q])
  {
    if WholeOf(log, pid, blocks, first, h[q]).Some? {
      var k := OwnerOfWhole(log, pid, blocks, first, h[p]);
      var j := OwnerOfWhole(log, pid, blocks, first, h[q]);
      JournalBlock(log, h, pid, blocks, k);
      JournalBlock(log, h, pid, blocks, j);
      WholeDiffers(log, blocks, first, k, j, h[p], h[q]);
    }
  }

  lemma OrderHas(log: seq<Placement>, h: seq<int>, pid: int, blocks: seq<Block>, first: int, q: nat, p: nat, w: int)
    requires p < q <= |h| && WholeOf(log, pid, blocks, first, h[p]) == Some(w)
    ensures w in FinishOrder(h[..q], log, pid, blocks, first)
  {
    assert h[..q][p] == h[p];
    FinishOrderHas(h[..q], log, pid, blocks, first, w);
  }

  lemma OrderHasNot(log: seq<Placement>, h: seq<int>, pid: int, blocks: seq<Block>, first: int, q: nat, w: int)
    requires Journal(log, h, pid, blocks) && q < |h| && WholeOf(log, pid, blocks, first, h[q]) == Some(w)
    ensures w !in FinishOrder(h[..q], log, pid, blocks, first)
  {
    FinishOrderHas(h[..q], log, pid, blocks, first, w);
    if w in FinishOrder(h[..q], log, pid, blocks, first) {
      var p :| 0 <= p < |h[..q]| && WholeOf(log, pid, blocks, first, h[..q][p]) == Some(w);
      WholeIsNew(log, h, pid, blocks, first, p, q);
    }
  }

  lemma OrderNext(log: seq<Placement>, h: seq<int>, pid: int, blocks: seq<Block>, first: int, q: nat)
    requires q < |h|
    ensures var w := WholeOf(log, pid, blocks, first, h[q]);
            FinishOrder(h[..q + 1], log, pid, blocks, first) ==
            FinishOrder(h[..q], log, pid, blocks, first) + if w.Some? then [w.value] else []
  {
    assert h[..q + 1][..q] == h[..q];
  }

  lemma TopologicalAppend(m: TaskMap, h: seq<int>, w: int)
    requires Topological(m, h) && NoDup(h) && w in m && w !in h && m[w].preds <= Elements(h)
    ensures Topological(m, h + [w]) && NoDup(h + [w])
  {
    forall i | 0 <= i < |h + [w]| ensures (h + [w])[i] in m && m[(h + [w])[i]].preds <= Elements((h + [w])[..i]) {
      if i < |h| {
        assert (h + [w])[..i] == h[..i];
      } else {
        assert (h + [w])[..i] == h;
      }
    }
  }

  /** The next task of the order is one of the program, is new, and comes after its
      predecessors. */
  lemma NextFits(log: seq<Placement>, h: seq<int>, pid: int, tm: Timing, blocks: seq<Block>, first: int, m: TaskMap,
                 q: nat)
    requires Journal(log, h, pid, blocks) && Chained(blocks, pid, tm, first, m) && q < |h|
    requires WholeOf(log, pid, blocks, first, h[q]).Some?
    ensures var w := WholeOf(log, pid, blocks, first, h[q]).value;
            var before := FinishOrder(h[..q], log, pid, blocks, first);
            w in m && w !in before && m[w].preds <= Elements(before)
  {
    var w := WholeOf(log, pid, blocks, first, h[q]).value;
    var k := OwnerOfWhole(log, pid, blocks, first, h[q]);
    JournalBlock(log, h, pid, blocks, k);
    WholeRange(log[k], blocks, first, h[q]);
    ChainedAt(blocks, pid, tm, first, m, log[k].index, w);
    OrderHasNot(log, h, pid, blocks, first, q, w);
    forall v | v in m[w].preds ensures v in FinishOrder(h[..q], log, pid, blocks, first) {
      var p := PredecessorRan(log, h, pid, blocks, first, q, k, v);
      OrderHas(log, h, pid, blocks, first, q, p, v);
    }
  }

  ghost predicate IsLinearExtension(m: TaskMap, order: seq<int>) {
    Topological(m, order) && NoDup(order)
  }

  lemma OrderGrows(log: seq<Placement>, h: seq<int>, pid: int, tm: Timing, blocks: seq<Block>, first: int, m: TaskMap,
                   q: nat)
    requires Journal(log, h, pid, blocks) && Chained(blocks, pid, tm, first, m) && q < |h|
    requires IsLinearExtension(m, FinishOrder(h[..q], log, pid, blocks, first))
    ensures IsLinearExtension(m, FinishOrder(h[..q + 1], log, pid, blocks, first))
  {
    OrderNext(log, h, pid, blocks, first, q);
    var next := WholeOf(log, pid, blocks, first, h[q]);
    if next.Some? {
      NextFits(log, h, pid, tm, blocks, first, m, q);
      TopologicalAppend(m, FinishOrder(h[..q], log, pid, blocks, first), next.value);
    } else {
      assert FinishOrder(h[..q], log, pid, blocks, first) + [] == FinishOrder(h[..q], log, pid, blocks, first);
    }
  }

  lemma EmptyOrder(log: seq<Placement>, h: seq<int>, pid: int, blocks: seq<Block>, first: int, m: TaskMap)
    ensures IsLinearExtension(m, FinishOrder(h[..0], log, pid, blocks, first))
  {
  }

  lemma {:induction false} OrderIsTopological(log: seq<Placement>, h: seq<int>, pid: int, tm: Timing,
                                              blocks: seq<Block>,
                                              first: int, m: TaskMap, q: nat)
    requires Journal(log, h, pid, blocks) && Chained(blocks, pid, tm, first, m) && q <= |h|
    ensures IsLinearExtension(m, FinishOrder(h[..q], log, pid, blocks, first))
    decreases q
  {
    if q == 0 {
      EmptyOrder(log, h, pid, blocks, first, m);
    } else {
      OrderIsTopological(log, h, pid, tm, blocks, first, m, q - 1);
      OrderGrows(log, h, pid, tm, blocks, first, m, q - 1);
    }
  }

  lemma RunJournal(ns: seq<Node>, es: seq<NodeEvent>, i: nat, pid: int)
    requires IsNodeRun(ns, es) && JumpFree(es) && i < |ns| && pid in ns[i].programs
    ensures Journal(ns[i].log, ns[i].sys.history, pid, ns[i].programs[pid].blocks)
  {
    NodeRunKeeps(ns, es, i);
    OrderRun(ns, es, i);
    NodeJournal(ns[i], pid);
  }

  /** In every run without jumps, with any number of other processes, the order in which
      the tasks of a process finish is a topological order of the graph that the program
      builder makes of its whole program. */
  lemma FinishOrderRefinesProgram(ns: seq<Node>, es: seq<NodeEvent>, i: nat, pid: int, blocks: seq<Block>, tm: Timing,
                                  first: int)
    requires IsNodeRun(ns, es) && JumpFree(es) && i < |ns| && pid in ns[i].programs
    requires ns[i].programs[pid] == Instance(blocks, tm) && ProgramGraph(blocks, pid, tm, first).Some?
    ensures var m := ProgramGraph(blocks, pid, tm, first).value.tasks;
            var order := FinishOrder(ns[i].sys.history, ns[i].log, pid, blocks, first);
            IsLinearExtension(m, order)
  {
    var h := ns[i].sys.history;
    RunJournal(ns, es, i, pid);
    ProgramGraphIsDag(blocks, pid, tm, first);
    OrderIsTopological(ns[i].log, h, pid, tm, blocks, first, ProgramGraph(blocks, pid, tm, first).value.tasks, |h|);
    assert h[..|h|] == h;
  }

  lemma AllHandedOut(ns: seq<Node>, es: seq<NodeEvent>, i: nat, pid: int, b: nat) returns (k: nat)
    requires IsNodeRun(ns, es) && JumpFree(es) && i < |ns| && pid in ns[i].index && b < ns[i].index[pid]
    ensures k < |ns[i].log| && ns[i].log[k].pid == pid && ns[i].log[k].index == b
  {
    OrderRun(ns, es, i);
    var log := ns[i].log;
    assert log[..|log|] == log;
    k := FindIndex(log, |log|, pid, b);
  }

  lemma PlacedIsDone(ns: seq<Node>, es: seq<NodeEvent>, i: nat, k: nat, t: int)
    requires IsNodeRun(ns, es) && i < |ns| && k < |ns[i].log| && t in ns[i].log[k].Tasks()
    requires !HasTask(ns[i].sys.cpu, ns[i].log[k].pid)
    ensures t in ns[i].sys.history
  {
    NodeRunKeeps(ns, es, i);
    BlockIsDone(ns[i], ns[i].log[k], t);
  }

  /** Once the last block has been handed out and the CPU core has no task of the process
      left, the order lists every task of the program. */
  lemma FinishOrderIsComplete(ns: seq<Node>, es: seq<NodeEvent>, i: nat, pid: int, blocks: seq<Block>, first: int,
                              w: int)
    requires IsNodeRun(ns, es) && JumpFree(es) && i < |ns| && pid in ns[i].programs &&
             ns[i].programs[pid].blocks == blocks
    requires pid in ns[i].index && ns[i].index[pid] >= |blocks| && !HasTask(ns[i].sys.cpu, pid)
    requires first <= w < FirstId(blocks, first, |blocks|)
    ensures w in FinishOrder(ns[i].sys.history, ns[i].log, pid, blocks, first)
  {
    var log, h := ns[i].log, ns[i].sys.history;
    RunJournal(ns, es, i, pid);
    var b := BlockOf(blocks, first, |blocks|, w);
    var k := AllHandedOut(ns, es, i, pid, b);
    JournalBlock(log, h, pid, blocks, k);
    var t := w - FirstId(blocks, first, b) + log[k].first;
    PlacedIsDone(ns, es, i, k, t);
    DoneIsListed(log, h, pid, blocks, first, k, t, w);
  }

  lemma DoneIsListed(log: seq<Placement>, h: seq<int>, pid: int, blocks: seq<Block>, first: int, k: nat, t: int, w: int)
    requires Increasing(log) && k < |log| && log[k].pid == pid && log[k].index <= |blocks|
    requires t in log[k].Tasks() && t in h && w == Whole(log[k], blocks, first, t)
    ensures w in FinishOrder(h, log, pid, blocks, first)
  {
    WholeOfOwned(log, k, pid, blocks, first, t);
    var q :| 0 <= q < |h| && h[q] == t;
    FinishOrderHas(h, log, pid, blocks, first, w);
  }
}
