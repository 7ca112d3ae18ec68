/** The mutable task graph (qoala/runtime/task.py:399-542, 590-638). */
module TaskGraphs {
  import opened Tasks
  import opened Reachability
  import opened Projection
  import opened GraphOps

  /** `update_successors`: every predecessor learns about its successors. */
  function WithSuccessors(g: Graph): Graph {
    g.(tasks := map p | p in g.tasks ::
                  g.tasks[p].(succs := g.tasks[p].succs + set t | t in g.tasks && p in g.tasks[t].preds))
  }

  /** A task's predecessors name it as their successor, and nothing else does. */
  ghost predicate Linked(m: TaskMap) {
    && Closed(m)
    && forall p :: p in m ==> m[p].succs == set t | t in m && p in m[t].preds
  }

  // ----- updating a dictionary task by task -----

  /** The dictionary `m` after the tasks in `done` have got their value from `target`. */
  ghost function Mixed(m: TaskMap, target: TaskMap, done: set<int>): TaskMap {
    map t | t in m :: if t in done && t in target then target[t] else m[t]
  }

  lemma MixedStep(m: TaskMap, target: TaskMap, done: set<int>, t: int)
    requires t in m && t in target
    ensures Mixed(m, target, done)[t := target[t]] == Mixed(m, target, done + {t})
  {
  }

  lemma MixedAll(m: TaskMap, target: TaskMap, done: set<int>)
    requires m.Keys == target.Keys && m.Keys <= done
    ensures Mixed(m, target, done) == target
  {
  }

  lemma MixedNone(m: TaskMap, target: TaskMap)
    ensures Mixed(m, target, {}) == m
  {
  }

  /** Before the first round of a loop over the order. */
  lemma MixedStart(m: TaskMap, target: TaskMap, order: seq<int>)
    ensures Mixed(m, target, Elements(order[..0])) == m
  {
    assert Elements(order[..0]) == {};
    MixedNone(m, target);
  }

  /** One round of a loop over the order: task `order[i]` gets its value. */
  lemma MixedNext(m: TaskMap, target: TaskMap, order: seq<int>, i: nat)
    requires i < |order| && NoDup(order) && Elements(order) <= m.Keys && m.Keys == target.Keys
    ensures order[i] in m && order[i] !in Elements(order[..i])
    ensures Mixed(m, target, Elements(order[..i]))[order[i]] == m[order[i]]
    ensures Mixed(m, target, Elements(order[..i]))[order[i] := target[order[i]]] == Mixed(m, target, Elements(order[..i + 1]))
  {
    NextInOrder(order, i);
    assert order[i] in m;
    MixedStep(m, target, Elements(order[..i]), order[i]);
  }

  lemma NextInOrder(order: seq<int>, i: nat)
    requires i < |order| && NoDup(order)
    ensures Elements(order[..i + 1]) == Elements(order[..i]) + {order[i]}
    ensures order[i] in Elements(order) && order[i] !in Elements(order[..i])
  {
    assert order[..i + 1] == order[..i] + [order[i]];
  }

  // ----- the targets of the loops -----

  /** `update_successors` after it has handled the tasks in `done`. */
  ghost function Linking(m: TaskMap, done: set<int>): TaskMap {
    map p | p in m :: m[p].(succs := m[p].succs + set t | t in done && t in m && p in m[t].preds)
  }

  ghost function OneLinked(m: TaskMap, t: int): TaskMap {
    map p | p in m :: m[p].(succs := m[p].succs + {t})
  }

  lemma LinkingStep(m: TaskMap, done: set<int>, t: int)
    requires t in m
    ensures Linking(m, done + {t}) == Mixed(Linking(m, done), OneLinked(Linking(m, done), t), m[t].preds)
  {
    var a := Linking(m, done + {t});
    var b := Mixed(Linking(m, done), OneLinked(Linking(m, done), t), m[t].preds);
    forall p | p in m ensures a[p] == b[p] {
      assert a[p].succs == b[p].succs;
    }
  }

  lemma LinkingNone(m: TaskMap)
    ensures Linking(m, {}) == m
  {
    forall p | p in m ensures Linking(m, {})[p] == m[p] {
      assert Linking(m, {})[p].succs == m[p].succs;
    }
  }

  lemma LinkingAll(g: Graph, done: set<int>)
    requires done == g.tasks.Keys
    ensures Linking(g.tasks, done) == WithSuccessors(g).tasks
  {
    var a := Linking(g.tasks, done);
    var b := WithSuccessors(g).tasks;
    forall p | p in g.tasks ensures a[p] == b[p] {
      assert a[p].succs == b[p].succs;
    }
  }

  ghost function Unlinked(m: TaskMap, id: int): TaskMap {
    map t | t in m :: m[t].(preds := m[t].preds - {id})
  }

  function Activated(info: TaskInfo, id: int): TaskInfo {
    if id in info.relDeadlines
    then info.(deadline := Some(info.relDeadlines[id]), relDeadlines := info.relDeadlines - {id})
    else info
  }

  ghost function AllActivated(m: TaskMap, id: int): TaskMap {
    map t | t in m :: Activated(m[t], id)
  }

  lemma UnlinkThenActivate(g: Graph, id: int)
    requires CanRemove(g, id)
    ensures var m := g.tasks - {id};
            AllActivated(Mixed(m, Unlinked(m, id), g.tasks[id].succs), id) == GraphOps.RemoveTask(g, id).value.tasks
  {
    var m := g.tasks - {id};
    var a := AllActivated(Mixed(m, Unlinked(m, id), g.tasks[id].succs), id);
    var b := GraphOps.RemoveTask(g, id).value.tasks;
    forall t | t in m ensures a[t] == b[t] {
      if id !in g.tasks[t].relDeadlines {
        assert g.tasks[t].relDeadlines - {id} == g.tasks[t].relDeadlines;
      }
    }
  }

  /** The first loop of `partial_graph`: predecessors are split over the processors. */
  function Split(info: TaskInfo, keep: set<int>): TaskInfo {
    info.(preds := (set p | p in info.preds && p in keep),
          extPreds := (set p | p in info.preds && p !in keep),
          succs := {})
  }

  ghost function AllSplit(m: TaskMap, keep: set<int>): TaskMap
    requires keep <= m.Keys
  {
    map t | t in keep :: Split(m[t], keep)
  }

  ghost function Detoured(m: TaskMap, proc: ProcessorType): TaskMap
    requires Acyclic(m) && Closed(m)
  {
    map t | t in TasksOn(m, proc) :: PartialInfo(m, t).(succs := {})
  }

  /** The second loop of `partial_graph`: detours become predecessors, and relative
      deadlines are filtered before the external ones are read off them. */
  function WithDetours(info: TaskInfo, doubleCross: set<int>, keep: set<int>): TaskInfo {
    var rel := Restrict(info.relDeadlines, keep);
    info.(preds := info.preds + doubleCross,
          relDeadlines := rel,
          extRelDeadlines := map x | x in rel && x !in keep :: rel[x])
  }

  lemma SplitThenDetour(m: TaskMap, proc: ProcessorType, t: int, keep: set<int>)
    requires Acyclic(m) && Closed(m) && keep == TasksOn(m, proc) && t in keep
    ensures WithDetours(AllSplit(m, keep)[t], DoubleCrossPredecessors(m, t), keep) == Detoured(m, proc)[t]
  {
    var rel := Restrict(m[t].relDeadlines, keep);
    assert Split(m[t], keep).preds == set p | p in m[t].preds && Proc(m, p) == Proc(m, t);
    assert Split(m[t], keep).extPreds == PartialExtPreds(m, t);
    assert (map x | x in rel && x !in keep :: rel[x]) == map[];
  }

  lemma DetouredKeys(m: TaskMap, proc: ProcessorType, keep: set<int>)
    requires Acyclic(m) && Closed(m) && keep == TasksOn(m, proc)
    ensures Detoured(m, proc).Keys == keep == AllSplit(m, keep).Keys
  {
  }

  lemma DetouredIsClosed(m: TaskMap, proc: ProcessorType)
    requires Acyclic(m) && Closed(m)
    ensures Closed(Detoured(m, proc))
  {
  }

  lemma LinkDetouredAt(m: TaskMap, proc: ProcessorType, t: int)
    requires Acyclic(m) && Closed(m) && t in TasksOn(m, proc)
    ensures (set u | u in Detoured(m, proc) && t in Detoured(m, proc)[u].preds) == PartialSuccs(m, t)
  {
    forall u | u in PartialSuccs(m, t) ensures u in Detoured(m, proc) && t in Detoured(m, proc)[u].preds {
    }
  }

  lemma LinkDetoured(m: TaskMap, proc: ProcessorType, order: seq<int>)
    requires Acyclic(m) && Closed(m)
    ensures WithSuccessors(Graph(order, Detoured(m, proc))).tasks == PartialTasks(m, proc)
  {
    var d := Detoured(m, proc);
    forall t | t in d ensures WithSuccessors(Graph(order, d)).tasks[t] == PartialTasks(m, proc)[t] {
      LinkDetouredAt(m, proc, t);
      assert {} + PartialSuccs(m, t) == PartialSuccs(m, t);
    }
  }

  lemma DecreasedAt(g: Graph, amount: int, t: int)
    requires t in g.tasks
    ensures GraphOps.DecreaseDeadlines(g, amount).tasks[t] ==
            g.tasks[t].(deadline := Sooner(g.tasks[t].deadline, amount))
  {
  }

  // ----- building -----

  function Added(g: Graph, task: Task): Graph {
    Graph(if task.id in g.tasks then g.order else g.order + [task.id], g.tasks[task.id := OnlyTask(task)])
  }

  /** `dict.update`: keys that exist already keep their place. */
  function Updated(g: Graph, h: Graph): Graph {
    Graph(g.order + Pick(h.order, h.tasks.Keys - g.tasks.Keys), g.tasks + h.tasks)
  }

  lemma UpdatedIsMerge(g: Graph, h: Graph)
    requires Ordered(h) && g.tasks.Keys !! h.tasks.Keys
    ensures Updated(g, h) == Merge(g, h)
  {
    assert h.tasks.Keys - g.tasks.Keys == h.tasks.Keys;
    PickAll(h.order, h.tasks.Keys);
  }

  function Preceded(g: Graph, t: int, p: int): (r: Graph)
    requires t in g.tasks
    ensures r.tasks.Keys == g.tasks.Keys
  {
    g.(tasks := g.tasks[t := g.tasks[t].(preds := g.tasks[t].preds + {p})])
  }

  // ----- following the chain -----

  /** A chain from the only root, of any length. */
  ghost predicate Leads(g: Graph, chain: seq<int>) {
    chain != [] && Roots(g, false) == [chain[0]] && Steps(g, chain)
  }

  lemma StepsAppend(g: Graph, c: seq<int>, x: int)
    requires c != [] && Steps(g, c) && c[|c| - 1] in g.tasks && g.tasks[c[|c| - 1]].succs == {x}
    ensures Steps(g, c + [x])
  {
    var e := c + [x];
    forall i, j {:trigger e[i], e[j]} | 0 <= i && j == i + 1 && j < |e|
      ensures OnlyNext(g, e[i], e[j])
    {
      if j < |c| {
        assert e[i] == c[i] && e[j] == c[j];
      } else {
        assert e[i] == c[|c| - 1] && e[j] == x;
      }
    }
  }

  lemma NothingToFollow(g: Graph)
    requires g.order == []
    ensures Follows(g, [])
  {
  }

  lemma LeadsToTheEnd(g: Graph, c: seq<int>)
    requires Leads(g, c) && |c| == |g.order|
    ensures Follows(g, c)
  {
  }

  lemma NoOnlyRoot(g: Graph)
    requires g.order != [] && |Roots(g, false)| != 1
    ensures forall d :: !Follows(g, d)
  {
  }

  lemma OnlyMember(s: set<int>, x: int)
    requires |s| == 1 && x in s
    ensures s == {x}
  {
    assert |s - {x}| == 0;
  }

  /** Without a single successor, no chain goes on after `c`. */
  lemma NoWayOn(g: Graph, c: seq<int>)
    requires 0 < |c| < |g.order| && (forall d :: Follows(g, d) ==> d[..|c|] == c)
    requires c[|c| - 1] !in g.tasks || |g.tasks[c[|c| - 1]].succs| != 1
    ensures forall d :: !Follows(g, d)
  {
    forall d ensures !Follows(g, d) {
      if Follows(g, d) {
        GoesOn(g, d, |c| - 1, c[|c| - 1]);
      }
    }
  }

  lemma GoesOn(g: Graph, d: seq<int>, i: nat, t: int)
    requires Follows(g, d) && i + 1 < |d| && d[..i + 1][i] == t
    ensures t in g.tasks && g.tasks[t].succs == {d[i + 1]} && |g.tasks[t].succs| == 1
  {
    var j := i + 1;
    assert d[i] == t && OnlyNext(g, d[i], d[j]);
  }

  lemma OnlyWayOn(g: Graph, c: seq<int>, x: int)
    requires 0 < |c| < |g.order| && Leads(g, c) && (forall d :: Follows(g, d) ==> d[..|c|] == c)
    requires c[|c| - 1] in g.tasks && g.tasks[c[|c| - 1]].succs == {x}
    ensures Leads(g, c + [x]) && forall d :: Follows(g, d) ==> d[..|c| + 1] == c + [x]
  {
    StepsAppend(g, c, x);
    forall d | Follows(g, d) ensures d[..|c| + 1] == c + [x] {
      GoesOn(g, d, |c| - 1, c[|c| - 1]);
      assert d[|c|] in {x};
    }
  }

  // ----- what the methods do to each task -----

  /** The successors of `p` are those it had and the tasks that name it as a predecessor. */
  ghost predicate GainsSuccessors(m: TaskMap, p: int, info: TaskInfo) {
    && p in m && info == m[p].(succs := info.succs)
    && forall s :: s in info.succs <==> s in m[p].succs || (s in m && p in m[s].preds)
  }

  /** After the removal of `id`: a successor does not wait for it any more, and a deadline
      relative to it counts from now on. */
  ghost predicate IsReleased(m: TaskMap, id: int, t: int, info: TaskInfo) {
    && id in m && t in m && t != id
    && info == m[t].(preds := info.preds, deadline := info.deadline, relDeadlines := info.relDeadlines)
    && (forall p :: p in info.preds <==> p in m[t].preds && !(p == id && t in m[id].succs))
    && info.deadline == (if id in m[t].relDeadlines then Some(m[t].relDeadlines[id]) else m[t].deadline)
    && info.relDeadlines == m[t].relDeadlines - {id}
  }

  ghost predicate IsSooner(m: TaskMap, amount: int, t: int, info: TaskInfo) {
    && t in m && info == m[t].(deadline := info.deadline)
    && (m[t].deadline.None? ==> info.deadline.None?)
    && (m[t].deadline.Some? ==> info.deadline == Some(m[t].deadline.value - amount))
  }

  lemma SuccessorsGained(g: Graph)
    ensures forall p :: p in g.tasks ==> GainsSuccessors(g.tasks, p, WithSuccessors(g).tasks[p])
  {
  }

  lemma TasksReleased(g: Graph, id: int)
    requires CanRemove(g, id)
    ensures var rest := GraphOps.RemoveTask(g, id).value.tasks;
            rest.Keys == g.tasks.Keys - {id} && forall t :: t in rest ==> IsReleased(g.tasks, id, t, rest[t])
  {
  }

  class TaskGraph {
    var order: seq<int>
    var tasks: TaskMap

    ghost function Value(): Graph
      reads this
    {
      Graph(order, tasks)
    }

    constructor FromValue(g: Graph)
      ensures Value() == g
    {
      order, tasks := g.order, g.tasks;
    }

    method UpdateSuccessors()
      requires Ordered(Value()) && Closed(tasks)
      modifies this
      ensures Value() == WithSuccessors(old(Value()))
      ensures forall p :: p in tasks ==> GainsSuccessors(old(tasks), p, tasks[p])
    {
      ghost var g := Value();
      LinkingNone(g.tasks);
      assert Elements(order[..0]) == {};
      var i := 0;
      while i < |order|
        invariant 0 <= i <= |order| && order == g.order
        invariant tasks == Linking(g.tasks, Elements(order[..i]))
      {
        NextInOrder(order, i);
        LinkingStep(g.tasks, Elements(order[..i]), order[i]);
        AddSuccessor(order[i], g.tasks[order[i]].preds);
        i := i + 1;
      }
      assert order[..i] == order;
      LinkingAll(g, Elements(order));
      SuccessorsGained(g);
    }

    /** The inner loop of `update_successors`, over the predecessors of one task. */
    method AddSuccessor(t: int, ghost preds: set<int>)
      requires t in tasks && tasks[t].preds == preds && preds <= tasks.Keys
      modifies this`tasks
      ensures tasks == Mixed(old(tasks), OneLinked(old(tasks), t), preds)
    {
      ghost var target := OneLinked(tasks, t);
      var rest := tasks[t].preds;
      MixedNone(tasks, target);
      assert preds - rest == {};
      while rest != {}
        invariant rest <= preds && tasks == Mixed(old(tasks), target, preds - rest)
        decreases rest
      {
        var p := AnyOf(rest);
        MixedStep(old(tasks), target, preds - rest, p);
        assert preds - (rest - {p}) == preds - rest + {p};
        tasks := tasks[p := tasks[p].(succs := tasks[p].succs + {t})];
        rest := rest - {p};
      }
      assert preds - rest == preds;
    }

    method RemoveTask(id: int)
      requires Ordered(Value()) && CanRemove(Value(), id)
      modifies this
      ensures Value() == GraphOps.RemoveTask(old(Value()), id).value
      ensures tasks.Keys == old(tasks).Keys - {id}
      ensures forall t :: t in tasks ==> IsReleased(old(tasks), id, t, tasks[t])
    {
      ghost var g := Value();
      var info := tasks[id];
      order := Pick(order, tasks.Keys - {id});
      tasks := tasks - {id};
      PickNoDup(g.order, g.tasks.Keys - {id});
      assert Elements(order) == tasks.Keys;
      assert info.succs <= tasks.Keys by {
        forall x | x in info.succs ensures x in tasks {
          assert x != id && x in g.tasks;
        }
      }
      RemovePredecessor(id, info.succs);
      ActivateDeadlines(id);
      UnlinkThenActivate(g, id);
      TasksReleased(g, id);
    }

    method RemovePredecessor(id: int, succs: set<int>)
      requires succs <= tasks.Keys
      modifies this`tasks
      ensures tasks == Mixed(old(tasks), Unlinked(old(tasks), id), succs)
    {
      ghost var target := Unlinked(tasks, id);
      var rest := succs;
      MixedNone(tasks, target);
      assert succs - rest == {};
      while rest != {}
        invariant rest <= succs && tasks == Mixed(old(tasks), target, succs - rest)
        decreases rest
      {
        var s := AnyOf(rest);
        MixedStep(old(tasks), target, succs - rest, s);
        assert succs - (rest - {s}) == succs - rest + {s};
        tasks := tasks[s := tasks[s].(preds := tasks[s].preds - {id})];
        rest := rest - {s};
      }
      assert succs - rest == succs;
    }

    method ActivateDeadlines(id: int)
      requires Ordered(Value())
      modifies this`tasks
      ensures tasks == AllActivated(old(tasks), id)
    {
      ghost var target := AllActivated(tasks, id);
      MixedStart(tasks, target, order);
      var i := 0;
      while i < |order|
        invariant 0 <= i <= |order| && tasks == Mixed(old(tasks), target, Elements(order[..i]))
      {
        var t := order[i];
        MixedNext(old(tasks), target, order, i);
        var info := tasks[t];
        if id in info.relDeadlines {
          info := info.(deadline := Some(info.relDeadlines[id]), relDeadlines := info.relDeadlines - {id});
        }
        tasks := tasks[t := info];
        i := i + 1;
      }
      assert order[..i] == order;
      MixedAll(old(tasks), target, Elements(order));
    }

    method DecreaseDeadlines(amount: int)
      requires Ordered(Value())
      modifies this`tasks
      ensures Value() == GraphOps.DecreaseDeadlines(old(Value()), amount)
      ensures tasks.Keys == old(tasks).Keys
      ensures forall t :: t in tasks ==> IsSooner(old(tasks), amount, t, tasks[t])
    {
      ghost var target := GraphOps.DecreaseDeadlines(Value(), amount).tasks;
      MixedStart(tasks, target, order);
      var i := 0;
      while i < |order|
        invariant 0 <= i <= |order| && tasks == Mixed(old(tasks), target, Elements(order[..i]))
      {
        var t := order[i];
        MixedNext(old(tasks), target, order, i);
        DecreasedAt(old(Value()), amount, t);
        tasks := tasks[t := tasks[t].(deadline := Sooner(tasks[t].deadline, amount))];
        i := i + 1;
      }
      assert order[..i] == order;
      MixedAll(old(tasks), target, Elements(order));
    }

    /** The copy is filtered first, then its predecessors are split, detours are added,
        and the successors are filled in last. */
    method PartialGraph(proc: ProcessorType) returns (part: TaskGraph)
      requires Ordered(Value()) && Acyclic(tasks) && Closed(tasks)
      ensures fresh(part) && part.Value() == Projection.PartialGraph(Value(), proc)
      ensures forall t :: t in part.tasks ==> KeepsTask(tasks, proc, t, part.tasks[t])
    {
      var keep := TasksOn(tasks, proc);
      part := new TaskGraph.FromValue(Graph(Pick(order, keep), map t | t in keep :: tasks[t]));
      PickNoDup(order, keep);
      assert Elements(part.order) == keep;
      part.SplitPredecessors(keep);
      assert part.tasks == AllSplit(tasks, keep);
      DetouredKeys(tasks, proc, keep);
      forall t | t in keep
        ensures Detoured(tasks, proc)[t] == WithDetours(part.tasks[t], DoubleCrossPredecessors(tasks, t), keep)
      {
        SplitThenDetour(tasks, proc, t, keep);
      }
      part.AddDetours(tasks, keep, Detoured(tasks, proc));
      DetouredIsClosed(tasks, proc);
      LinkDetoured(tasks, proc, part.order);
      part.UpdateSuccessors();
      forall t | t in part.tasks ensures KeepsTask(tasks, proc, t, part.tasks[t]) {
        PartKeepsTask(tasks, proc, t);
      }
    }

    /** Double-cross predecessors are looked up in the full graph `m`. */
    method AddDetours(m: TaskMap, keep: set<int>, ghost target: TaskMap)
      requires Acyclic(m) && Closed(m) && keep <= m.Keys
      requires Ordered(Value()) && tasks.Keys == target.Keys == keep
      requires forall t :: t in keep ==> target[t] == WithDetours(tasks[t], DoubleCrossPredecessors(m, t), keep)
      modifies this`tasks
      ensures tasks == target
    {
      MixedStart(tasks, target, order);
      var i := 0;
      while i < |order|
        invariant 0 <= i <= |order| && tasks == Mixed(old(tasks), target, Elements(order[..i]))
      {
        var t := order[i];
        MixedNext(old(tasks), target, order, i);
        tasks := tasks[t := WithDetours(tasks[t], DoubleCrossPredecessors(m, t), keep)];
        i := i + 1;
      }
      assert order[..i] == order;
      MixedAll(old(tasks), target, Elements(order));
    }

    method SplitPredecessors(keep: set<int>)
      requires Ordered(Value()) && tasks.Keys == keep
      modifies this`tasks
      ensures tasks == AllSplit(old(tasks), keep)
    {
      ghost var target := AllSplit(tasks, keep);
      MixedStart(tasks, target, order);
      var i := 0;
      while i < |order|
        invariant 0 <= i <= |order| && tasks == Mixed(old(tasks), target, Elements(order[..i]))
      {
        var t := order[i];
        MixedNext(old(tasks), target, order, i);
        tasks := tasks[t := Split(tasks[t], keep)];
        i := i + 1;
      }
      assert order[..i] == order;
      MixedAll(old(tasks), target, Elements(order));
    }

    /** The chain of an earlier round is the start of any chain that can be followed. */
    method Linearize() returns (chain: Option<seq<int>>)
      requires Ordered(Value())
      ensures chain.Some? ==> Follows(Value(), chain.value)
      ensures chain.None? ==> forall c :: !Follows(Value(), c)
    {
      if |order| == 0 {
        NothingToFollow(Value());
        return Some([]);
      }
      var roots := Pick(order, RootSet(tasks, false));
      assert roots == Roots(Value(), false);
      if |roots| != 1 {
        NoOnlyRoot(Value());
        return None;
      }
      var c := [roots[0]];
      for i := 1 to |order|
        invariant |c| == i && Leads(Value(), c)
        invariant forall d :: Follows(Value(), d) ==> d[..i] == c
      {
        var t := c[i - 1];
        if t !in tasks {
          NoWayOn(Value(), c);
          return None;
        }
        var successors := tasks[t].succs;
        if |successors| != 1 {
          NoWayOn(Value(), c);
          return None;
        }
        var successor := AnyOf(successors);
        OnlyMember(successors, successor);
        OnlyWayOn(Value(), c, successor);
        c := c + [successor];
      }
      LeadsToTheEnd(Value(), c);
      chain := Some(c);
    }

    // ----- building -----

    constructor ()
      ensures Value() == EmptyGraph
    {
      order, tasks := [], map[];
    }

    /** `add_tasks` with one task. */
    method AddTask(task: Task)
      modifies this
      ensures Value() == Added(old(Value()), task)
    {
      if task.id !in tasks {
        order := order + [task.id];
      }
      tasks := tasks[task.id := OnlyTask(task)];
    }

    /** `get_tasks().update(...)`. */
    method Update(h: Graph)
      modifies this
      ensures Value() == Updated(old(Value()), h)
    {
      order := order + Pick(h.order, h.tasks.Keys - tasks.Keys);
      tasks := tasks + h.tasks;
    }

    method TaskExistsForPid(pid: int) returns (found: bool)
      requires Ordered(Value())
      ensures found <==> exists t :: t in tasks && tasks[t].task.pid == pid
    {
      found := false;
      for i := 0 to |order|
        invariant forall k :: 0 <= k < i ==> order[k] in tasks && tasks[order[k]].task.pid != pid
      {
        assert order[i] in Elements(order);
        if tasks[order[i]].task.pid == pid {
          return true;
        }
      }
      forall t | t in tasks ensures tasks[t].task.pid != pid {
        assert t in Elements(order);
        var k :| 0 <= k < |order| && order[k] == t;
      }
    }

    /** `get_tinfo(t).predecessors.add(p)`. */
    method AddPredecessor(t: int, p: int)
      requires t in tasks
      modifies this`tasks
      ensures Value() == Preceded(old(Value()), t, p)
    {
      tasks := tasks[t := tasks[t].(preds := tasks[t].preds + {p})];
    }

    /** Sets `rel_deadlines` of one task from a dictionary. */
    method SetRelDeadlines(t: int, deadlines: map<int, int>)
      requires t in tasks
      modifies this`tasks
      ensures tasks == old(tasks)[t := old(tasks)[t].(relDeadlines := old(tasks)[t].relDeadlines + deadlines)]
    {
      var rest := deadlines.Keys;
      var rel := tasks[t].relDeadlines;
      ghost var before := rel;
      assert deadlines - deadlines.Keys == map[];
      while rest != {}
        invariant tasks == old(tasks)
        invariant rest <= deadlines.Keys && rel == before + (deadlines - rest)
        decreases rest
      {
        var source := AnyOf(rest);
        rel := rel[source := deadlines[source]];
        assert deadlines - (rest - {source}) == (deadlines - rest)[source := deadlines[source]];
        rest := rest - {source};
      }
      assert deadlines - {} == deadlines;
      tasks := tasks[t := tasks[t].(relDeadlines := rel)];
    }
  }
}
