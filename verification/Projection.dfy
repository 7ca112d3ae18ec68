/** The projection of a task graph onto one processor (qoala/runtime/task.py:550-638). */
module Projection {
  import opened Tasks
  import opened Reachability

  function Proc(m: TaskMap, t: int): ProcessorType
    requires t in m
  {
    m[t].task.Processor()
  }

  /** With `immediate`, the parents on the other processor; without, the nearest
      ancestors on the other processor along every chain. */
  function CrossPredecessors(m: TaskMap, t: int, immediate: bool): (r: set<int>)
    requires Acyclic(m) && Closed(m) && t in m
    ensures forall x :: x in r ==> x in m && Proc(m, x) != Proc(m, t)
    decreases Ancestors(m, t)
  {
    AncestorsShrink(m, t);
    (set p | p in m[t].preds && Proc(m, p) != Proc(m, t)) +
    if immediate then {}
    else set p, x | p in m[t].preds && Proc(m, p) == Proc(m, t) && x in CrossPredecessors(m, p, false) :: x
  }

  /** Nearest same-processor ancestors behind a detour through the other processor. */
  function DoubleCrossPredecessors(m: TaskMap, t: int): (r: set<int>)
    requires Acyclic(m) && Closed(m) && t in m
    ensures forall x :: x in r ==> x in m && Proc(m, x) == Proc(m, t)
  {
    set c, x | c in CrossPredecessors(m, t, true) && x in CrossPredecessors(m, c, false) :: x
  }

  function TasksOn(m: TaskMap, proc: ProcessorType): (r: set<int>)
    ensures forall t :: t in r <==> t in m && Proc(m, t) == proc
  {
    set t | t in m && Proc(m, t) == proc
  }

  function PartialPreds(m: TaskMap, t: int): (r: set<int>)
    requires Acyclic(m) && Closed(m) && t in m
    ensures forall x :: x in r ==> x in m && Proc(m, x) == Proc(m, t)
  {
    (set p | p in m[t].preds && Proc(m, p) == Proc(m, t)) + DoubleCrossPredecessors(m, t)
  }

  function PartialExtPreds(m: TaskMap, t: int): set<int>
    requires Closed(m) && t in m
  {
    set p | p in m[t].preds && Proc(m, p) != Proc(m, t)
  }

  function PartialSuccs(m: TaskMap, t: int): set<int>
    requires Acyclic(m) && Closed(m) && t in m
  {
    set s | s in m && Proc(m, s) == Proc(m, t) && t in PartialPreds(m, s)
  }

  function Restrict(d: map<int, int>, keep: set<int>): map<int, int> {
    map k | k in d && k in keep :: d[k]
  }

  /** The relative deadlines on tasks of the other processor are dropped: they are
      filtered out before the external ones are computed (task.py:623-633). */
  function PartialInfo(m: TaskMap, t: int): TaskInfo
    requires Acyclic(m) && Closed(m) && t in m
  {
    m[t].(preds := PartialPreds(m, t),
          extPreds := PartialExtPreds(m, t),
          succs := PartialSuccs(m, t),
          relDeadlines := Restrict(m[t].relDeadlines, TasksOn(m, Proc(m, t))),
          extRelDeadlines := map[])
  }

  function PartialTasks(m: TaskMap, proc: ProcessorType): TaskMap
    requires Acyclic(m) && Closed(m)
  {
    map t | t in TasksOn(m, proc) :: PartialInfo(m, t)
  }

  function PartialGraph(g: Graph, proc: ProcessorType): Graph
    requires Acyclic(g.tasks) && Closed(g.tasks)
  {
    Graph(Pick(g.order, TasksOn(g.tasks, proc)), PartialTasks(g.tasks, proc))
  }

  // ----- what the projection keeps of a task -----

  /** Of the relative deadlines of a task, those whose source runs on `proc`. */
  ghost function OwnDeadlines(m: TaskMap, proc: ProcessorType, t: int): map<int, int>
    requires t in m
  {
    map x | x in m[t].relDeadlines && x in m && m[x].task.Processor() == proc :: m[t].relDeadlines[x]
  }

  /** The task itself, when it may start, its deadline, and its own relative deadlines with
      their values; external ones are never there. */
  ghost predicate KeepsTask(m: TaskMap, proc: ProcessorType, t: int, info: TaskInfo) {
    && t in m && m[t].task.Processor() == proc
    && info.task == m[t].task && info.startTime == m[t].startTime && info.deadline == m[t].deadline
    && info.relDeadlines == OwnDeadlines(m, proc, t) && info.extRelDeadlines == map[]
  }

  lemma PartKeepsTask(m: TaskMap, proc: ProcessorType, t: int)
    requires Acyclic(m) && Closed(m) && t in m && m[t].task.Processor() == proc
    ensures t in PartialTasks(m, proc) && KeepsTask(m, proc, t, PartialTasks(m, proc)[t])
  {
    assert t in TasksOn(m, proc);
    var rel := PartialTasks(m, proc)[t].relDeadlines;
    forall x ensures x in rel <==> x in OwnDeadlines(m, proc, t) {
    }
  }

  // ----- what the cross predecessors are -----

  /** A path that leaves the processor of its end only at its first task. */
  ghost predicate EntryPath(m: TaskMap, p: seq<int>, x: int, t: int) {
    && PathFromTo(m, p, x, t) && |p| >= 2
    && Proc(m, x) != Proc(m, t)
    && forall i :: 1 <= i < |p| ==> Proc(m, p[i]) == Proc(m, t)
  }

  lemma ExtendEntryPath(m: TaskMap, r: seq<int>, x: int, q: int, t: int)
    requires EntryPath(m, r, x, q) && Edge(m, q, t) && Proc(m, q) == Proc(m, t)
    ensures EntryPath(m, r + [t], x, t)
  {
    ExtendPath(m, r, t);
  }

  lemma ShortEntryPath(m: TaskMap, x: int, t: int)
    requires Edge(m, x, t) && Proc(m, x) != Proc(m, t)
    ensures EntryPath(m, [x, t], x, t)
  {
    EdgePath(m, x, t);
  }

  lemma {:induction false} EntryPathOf(m: TaskMap, t: int, x: int) returns (p: seq<int>)
    requires Acyclic(m) && Closed(m) && t in m
    requires x in CrossPredecessors(m, t, false)
    ensures EntryPath(m, p, x, t)
    decreases Ancestors(m, t)
  {
    AncestorsShrink(m, t);
    if x in m[t].preds && Proc(m, x) != Proc(m, t) {
      ShortEntryPath(m, x, t);
      p := [x, t];
    } else {
      var q :| q in m[t].preds && Proc(m, q) == Proc(m, t) && x in CrossPredecessors(m, q, false);
      var r := EntryPathOf(m, q, x);
      ExtendEntryPath(m, r, x, q, t);
      p := r + [t];
    }
  }

  lemma {:induction false} EntryPathIsCross(m: TaskMap, t: int, x: int, p: seq<int>)
    requires Acyclic(m) && Closed(m) && t in m
    requires EntryPath(m, p, x, t)
    ensures x in CrossPredecessors(m, t, false)
    decreases |p|
  {
    var n := |p| - 1;
    assert Edge(m, p[n - 1], p[n]);
    if n > 1 {
      SubPath(m, p, 0, n);
      EntryPathIsCross(m, p[n - 1], x, p[0..n]);
    }
  }

  /** A path between two tasks of one processor whose interior is non-empty and
      wholly on the other processor. */
  ghost predicate Detour(m: TaskMap, p: seq<int>, x: int, t: int) {
    && PathFromTo(m, p, x, t) && |p| >= 3
    && Proc(m, x) == Proc(m, t)
    && forall i :: 1 <= i < |p| - 1 ==> Proc(m, p[i]) != Proc(m, t)
  }

  /** The double-cross predecessors of a task are exactly the starts of the detours to it. */
  lemma DoubleCrossIsDetour(m: TaskMap, t: int, x: int)
    requires Acyclic(m) && Closed(m) && t in m
    ensures x in DoubleCrossPredecessors(m, t) <==> exists p :: Detour(m, p, x, t)
  {
    if x in DoubleCrossPredecessors(m, t) {
      var c :| c in CrossPredecessors(m, t, true) && x in CrossPredecessors(m, c, false);
      var r := EntryPathOf(m, c, x);
      EntryIntoDetour(m, r, x, c, t);
    }
    if p :| Detour(m, p, x, t) {
      DetourHasEntry(m, p, x, t);
      EntryPathIsCross(m, p[|p| - 2], x, p[0..|p| - 1]);
    }
  }

  lemma EntryIntoDetour(m: TaskMap, r: seq<int>, x: int, c: int, t: int)
    requires EntryPath(m, r, x, c) && Edge(m, c, t) && Proc(m, c) != Proc(m, t)
    ensures Detour(m, r + [t], x, t)
  {
    ExtendPath(m, r, t);
    var p := r + [t];
    forall i | 1 <= i < |p| - 1 ensures Proc(m, p[i]) != Proc(m, t) {
      assert p[i] == r[i];
    }
  }

  lemma DetourHasEntry(m: TaskMap, p: seq<int>, x: int, t: int)
    requires Detour(m, p, x, t)
    ensures var n := |p| - 1;
            Edge(m, p[n - 1], t) && Proc(m, p[n - 1]) != Proc(m, t) && EntryPath(m, p[0..n], x, p[n - 1])
  {
    var n := |p| - 1;
    assert Edge(m, p[n - 1], p[n]);
    SubPath(m, p, 0, n);
  }

  // ----- projection preserves reachability -----

  /** One edge of the projection is a path of the full graph. */
  lemma PartialEdgeIsPath(m: TaskMap, proc: ProcessorType, a: int, b: int)
    requires Acyclic(m) && Closed(m)
    requires Edge(PartialTasks(m, proc), a, b)
    ensures Ancestor(m, a, b)
  {
    if a in m[b].preds {
      EdgePath(m, a, b);
    } else {
      DoubleCrossIsDetour(m, b, a);
      var p :| Detour(m, p, a, b);
      assert PathFromTo(m, p, a, b);
    }
  }

  lemma {:induction false} PartialPathIsPath(m: TaskMap, proc: ProcessorType, p: seq<int>)
    requires Acyclic(m) && Closed(m)
    requires IsPath(PartialTasks(m, proc), p) && |p| >= 2
    ensures Ancestor(m, p[0], p[|p| - 1])
    decreases |p|
  {
    var n := |p| - 1;
    assert Edge(PartialTasks(m, proc), p[n - 1], p[n]);
    PartialEdgeIsPath(m, proc, p[n - 1], p[n]);
    if n > 1 {
      SubPath(PartialTasks(m, proc), p, 0, n);
      PartialPathIsPath(m, proc, p[0..n]);
      AncestorTransitive(m, p[0], p[n - 1], p[n]);
    }
  }

  /** The last task before the end of a path that runs on the given processor. */
  ghost function LastOn(m: TaskMap, proc: ProcessorType, p: seq<int>, k: nat): (j: nat)
    requires k < |p| && (forall i :: 0 <= i < |p| ==> p[i] in m) && Proc(m, p[0]) == proc
    ensures j <= k && Proc(m, p[j]) == proc
    ensures forall i :: j < i <= k ==> Proc(m, p[i]) != proc
  {
    if Proc(m, p[k]) == proc then k else LastOn(m, proc, p, k - 1)
  }

  lemma LastHop(m: TaskMap, proc: ProcessorType, p: seq<int>, j: nat)
    requires Acyclic(m) && Closed(m)
    requires IsPath(m, p) && j < |p| - 1
    requires Proc(m, p[j]) == proc && Proc(m, p[|p| - 1]) == proc
    requires forall i :: j < i < |p| - 1 ==> Proc(m, p[i]) != proc
    ensures Edge(PartialTasks(m, proc), p[j], p[|p| - 1])
  {
    var n := |p| - 1;
    if j == n - 1 {
      assert Edge(m, p[j], p[n]);
    } else {
      SubPath(m, p, j, n + 1);
      assert Detour(m, p[j..n + 1], p[j], p[n]);
      DoubleCrossIsDetour(m, p[n], p[j]);
    }
  }

  lemma {:induction false} PathIsPartialPath(m: TaskMap, proc: ProcessorType, p: seq<int>)
    requires Acyclic(m) && Closed(m)
    requires IsPath(m, p) && |p| >= 2
    requires Proc(m, p[0]) == proc && Proc(m, p[|p| - 1]) == proc
    ensures Ancestor(PartialTasks(m, proc), p[0], p[|p| - 1])
    decreases |p|
  {
    var n := |p| - 1;
    var j := LastOn(m, proc, p, n - 1);
    LastHop(m, proc, p, j);
    EdgePath(PartialTasks(m, proc), p[j], p[n]);
    if j > 0 {
      SubPath(m, p, 0, j + 1);
      PathIsPartialPath(m, proc, p[0..j + 1]);
      AncestorTransitive(PartialTasks(m, proc), p[0], p[j], p[n]);
    }
  }

  /** Between two tasks of one processor, the projection has exactly the ancestors of
      the full graph. */
  lemma ProjectionPreservesReachability(m: TaskMap, proc: ProcessorType, a: int, b: int)
    requires Acyclic(m) && Closed(m)
    requires a in TasksOn(m, proc) && b in TasksOn(m, proc)
    ensures Ancestor(PartialTasks(m, proc), a, b) <==> Ancestor(m, a, b)
  {
    if Ancestor(PartialTasks(m, proc), a, b) {
      var p :| PathFromTo(PartialTasks(m, proc), p, a, b) && |p| >= 2;
      PartialPathIsPath(m, proc, p);
    }
    if Ancestor(m, a, b) {
      var p :| PathFromTo(m, p, a, b) && |p| >= 2;
      PathIsPartialPath(m, proc, p);
    }
  }

  /** The projection of a DAG is a closed DAG again. */
  lemma PartialIsDag(m: TaskMap, proc: ProcessorType)
    requires Acyclic(m) && Closed(m)
    ensures Acyclic(PartialTasks(m, proc)) && Closed(PartialTasks(m, proc))
  {
    forall t | t in PartialTasks(m, proc) ensures !Ancestor(PartialTasks(m, proc), t, t) {
      ProjectionPreservesReachability(m, proc, t, t);
    }
  }
}
