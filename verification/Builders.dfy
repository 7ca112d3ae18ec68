/** The builders of task graphs (qoala/runtime/task.py:761-1189). */
module Builders {
  import opened Tasks
  import opened GraphOps
  import opened TaskGraphs
  import opened Programs

  ghost predicate FreshFrom(g: Graph, first: int) {
    forall t :: t in g.tasks ==> t < first
  }

  /** Durations of the host's part of a call, of what it calls, and of its callbacks. */
  datatype CallTimes = CallTimes(host: Option<int>, body: Option<int>, callback: Option<int>)

  // ----- the statements of each branch, on values -----

  function RoutineAdded(g: Graph, pid: int, name: string, times: CallTimes, pre: int): Graph {
    var g1 := Added(g, Task(pre, pid, PreCall(name, pre), times.host));
    var g2 := Added(g1, Task(pre + 1, pid, LocalRoutine(name, pre), times.body));
    var g3 := Added(g2, Task(pre + 2, pid, PostCall(name, pre), times.host));
    Preceded(Preceded(g3, pre + 1, pre), pre + 2, pre + 1)
  }

  function CallAdded(g: Graph, pid: int, name: string, times: CallTimes, pre: int): (r: Graph)
    ensures pre + 1 in r.tasks
  {
    Added(Added(g, Task(pre, pid, PreCall(name, pre), times.host)), Task(pre + 1, pid, PostCall(name, pre), times.host))
  }

  function WaitAllAdded(g: Graph, pid: int, name: string, callback: Option<string>, times: CallTimes, pre: int): Graph {
    var g1 := CallAdded(g, pid, name, times, pre);
    var g2 := Preceded(Added(g1, Task(pre + 2, pid, MultiPair(pre), times.body)), pre + 2, pre);
    match callback
    case Some(cb) =>
      var g3 := Added(g2, Task(pre + 3, pid, MultiPairCallback(cb, pre), times.callback));
      Preceded(Preceded(g3, pre + 3, pre + 2), pre + 1, pre + 3)
    case None => Preceded(g2, pre + 1, pre + 2)
  }

  /** One round of the loop over the pairs; `id` is the counter at its start. */
  function PairAdded(g: Graph, pid: int, callback: Option<string>, times: CallTimes, pre: int, i: int,
                     id: int): (r: Graph)
    requires pre + 1 in g.tasks
    ensures pre + 1 in r.tasks
  {
    var g1 := Preceded(Added(g, Task(id, pid, SinglePair(i, pre), times.body)), id, pre);
    match callback
    case Some(cb) =>
      var g2 := Added(g1, Task(id + 1, pid, SinglePairCallback(cb, i, pre), times.callback));
      Preceded(Preceded(g2, id + 1, id), pre + 1, id + 1)
    case None => Preceded(g1, pre + 1, id)
  }

  function PairId(callback: Option<string>, pre: int, i: int): int {
    pre + 2 + (if callback.Some? then 2 * i else i)
  }

  function PairsAdded(g: Graph, pid: int, name: string, callback: Option<string>, times: CallTimes, pre: int,
                      n: nat): (r: Graph)
    ensures pre + 1 in r.tasks
  {
    if n == 0 then CallAdded(g, pid, name, times, pre)
    else
      PairAdded(PairsAdded(g, pid, name, callback, times, pre, n - 1), pid, callback, times, pre, n - 1,
                PairId(callback, pre, n - 1))
  }

  /** `range` of a negative number is empty. */
  function AsCount(n: int): nat {
    if n > 0 then n else 0
  }

  class TaskIds {
    var counter: int

    constructor (first: int)
      ensures counter == first
    {
      counter := first;
    }

    method UniqueId() returns (id: int)
      modifies this
      ensures id == old(counter) && counter == old(counter) + 1
    {
      id := counter;
      counter := counter + 1;
    }

    method AddRoutine(graph: TaskGraph, pid: int, name: string, times: CallTimes)
      modifies this, graph
      ensures counter == old(counter) + 3
      ensures graph.Value() == RoutineAdded(old(graph.Value()), pid, name, times, old(counter))
    {
      var pre := UniqueId();
      graph.AddTask(Task(pre, pid, PreCall(name, pre), times.host));
      var lr := UniqueId();
      graph.AddTask(Task(lr, pid, LocalRoutine(name, pre), times.body));
      var post := UniqueId();
      graph.AddTask(Task(post, pid, PostCall(name, pre), times.host));
      graph.AddPredecessor(lr, pre);
      graph.AddPredecessor(post, lr);
    }

    method AddCall(graph: TaskGraph, pid: int, name: string, times: CallTimes) returns (pre: int, post: int)
      modifies this, graph
      ensures pre == old(counter) && post == pre + 1 && counter == pre + 2
      ensures graph.Value() == CallAdded(old(graph.Value()), pid, name, times, pre)
    {
      pre := UniqueId();
      graph.AddTask(Task(pre, pid, PreCall(name, pre), times.host));
      post := UniqueId();
      graph.AddTask(Task(post, pid, PostCall(name, pre), times.host));
    }

    method AddWaitAll(graph: TaskGraph, pid: int, name: string, callback: Option<string>, times: CallTimes)
      modifies this, graph
      ensures counter == old(counter) + (if callback.Some? then 4 else 3)
      ensures graph.Value() == WaitAllAdded(old(graph.Value()), pid, name, callback, times, old(counter))
    {
      var pre, post := AddCall(graph, pid, name, times);
      var rr := UniqueId();
      graph.AddTask(Task(rr, pid, MultiPair(pre), times.body));
      graph.AddPredecessor(rr, pre);
      if callback.Some? {
        var cb := UniqueId();
        graph.AddTask(Task(cb, pid, MultiPairCallback(callback.value, pre), times.callback));
        graph.AddPredecessor(cb, rr);
        graph.AddPredecessor(post, cb);
      } else {
        graph.AddPredecessor(post, rr);
      }
    }

    method AddPair(graph: TaskGraph, pid: int, callback: Option<string>, times: CallTimes, pre: int, post: int, i: int)
      requires post == pre + 1 && post in graph.tasks
      modifies this, graph
      ensures counter == old(counter) + (if callback.Some? then 2 else 1)
      ensures graph.Value() == PairAdded(old(graph.Value()), pid, callback, times, pre, i, old(counter))
    {
      var pair := UniqueId();
      graph.AddTask(Task(pair, pid, SinglePair(i, pre), times.body));
      graph.AddPredecessor(pair, pre);
      if callback.Some? {
        var cb := UniqueId();
        graph.AddTask(Task(cb, pid, SinglePairCallback(callback.value, i, pre), times.callback));
        graph.AddPredecessor(cb, pair);
        graph.AddPredecessor(post, cb);
      } else {
        graph.AddPredecessor(post, pair);
      }
    }

    method AddPairs(graph: TaskGraph, pid: int, callback: Option<string>, times: CallTimes, pre: int, post: int, n: nat,
                    ghost g: Graph, ghost name: string)
      requires post == pre + 1 && counter == PairId(callback, pre, 0)
      requires graph.Value() == CallAdded(g, pid, name, times, pre)
      modifies this, graph
      ensures counter == PairId(callback, pre, n)
      ensures graph.Value() == PairsAdded(g, pid, name, callback, times, pre, n)
    {
      for i := 0 to n
        invariant counter == PairId(callback, pre, i)
        invariant graph.Value() == PairsAdded(g, pid, name, callback, times, pre, i)
      {
        AddPair(graph, pid, callback, times, pre, post, i);
      }
    }

    method AddSequential(graph: TaskGraph, pid: int, name: string, callback: Option<string>, times: CallTimes,
                         numPairs: int)
      modifies this, graph
      ensures counter == PairId(callback, old(counter), AsCount(numPairs))
      ensures graph.Value() == PairsAdded(old(graph.Value()), pid, name, callback, times, old(counter), AsCount(numPairs))
    {
      ghost var g := graph.Value();
      var pre, post := AddCall(graph, pid, name, times);
      AddPairs(graph, pid, callback, times, pre, post, AsCount(numPairs), g, name);
    }
  }
}
