/** The operations of a task graph as functions on values (qoala/runtime/task.py:463-542). */
module GraphOps {
  import opened Tasks

  function RootSet(m: TaskMap, ignoreExternal: bool): set<int> {
    set t | t in m && m[t].preds == {} && (ignoreExternal || m[t].extPreds == {})
  }

  /** The tasks without predecessors, in insertion order. */
  function Roots(g: Graph, ignoreExternal: bool): seq<int> {
    Pick(g.order, RootSet(g.tasks, ignoreExternal))
  }

  function BlockedOnExternal(g: Graph): seq<int> {
    Pick(g.order, set t | t in g.tasks && g.tasks[t].preds == {} && g.tasks[t].extPreds != {})
  }

  /** The three assertions of `remove_task`. */
  predicate CanRemove(g: Graph, id: int) {
    && id in Roots(g, true) && id in g.tasks
    && forall s :: s in g.tasks[id].succs ==> s != id && s in g.tasks && id in g.tasks[s].preds
  }

  /** What `remove_task` leaves of another task: the precedence of a successor is
      dropped, and a deadline relative to the removed task becomes absolute. */
  function Released(info: TaskInfo, id: int, isSuccessor: bool): TaskInfo {
    info.(preds := if isSuccessor then info.preds - {id} else info.preds,
          deadline := if id in info.relDeadlines then Some(info.relDeadlines[id]) else info.deadline,
          relDeadlines := info.relDeadlines - {id})
  }

  /** None models a failed assertion. */
  function RemoveTask(g: Graph, id: int): Option<Graph> {
    if CanRemove(g, id) then
      var rest := g.tasks.Keys - {id};
      Some(Graph(Pick(g.order, rest),
                 map t | t in rest :: Released(g.tasks[t], id, t in g.tasks[id].succs)))
    else None
  }

  function Sooner(d: Option<int>, amount: int): Option<int> {
    if d.Some? then Some(d.value - amount) else None
  }

  function DecreaseDeadlines(g: Graph, amount: int): Graph {
    g.(tasks := map t | t in g.tasks :: g.tasks[t].(deadline := Sooner(g.tasks[t].deadline, amount)))
  }

  /** The external predecessors that the other core has finished are dropped from
      the tasks without internal predecessors (qoala/sim/scheduler.py:777-789). */
  function UpdateExternal(g: Graph, finished: set<int>): Graph {
    g.(tasks := map t | t in g.tasks ::
                  if g.tasks[t].preds == {}
                  then g.tasks[t].(extPreds := g.tasks[t].extPreds - finished)
                  else g.tasks[t])
  }

  predicate OnlyNext(g: Graph, t: int, next: int) {
    t in g.tasks && g.tasks[t].succs == {next}
  }

  /** Each task of the chain has the next as its only successor. */
  ghost predicate Steps(g: Graph, chain: seq<int>) {
    forall i, j {:trigger chain[i], chain[j]} :: 0 <= i && j == i + 1 && j < |chain| ==> OnlyNext(g, chain[i], chain[j])
  }

  /** The chain that `linearize` follows: from the only root, each time to the only
      successor, as many steps as there are tasks. */
  ghost predicate Follows(g: Graph, chain: seq<int>) {
    |chain| == |g.order| && (chain != [] ==> Roots(g, false) == [chain[0]]) && Steps(g, chain)
  }

  /** `dict.update` with tasks that have new ids. */
  function Merge(g: Graph, h: Graph): Graph {
    Graph(g.order + h.order, g.tasks + h.tasks)
  }

  lemma MergedIsOrdered(g: Graph, h: Graph)
    requires Ordered(g) && Ordered(h) && g.tasks.Keys !! h.tasks.Keys
    ensures Ordered(Merge(g, h))
  {
    var order := g.order + h.order;
    forall i, j | 0 <= i < j < |order| ensures order[i] != order[j] {
      if i < |g.order| <= j {
        assert g.order[i] in Elements(g.order) && h.order[j - |g.order|] in Elements(h.order);
      }
    }
  }
}
