/** The CPU and the QPU scheduler of one node as two processes that interleave freely
    (qoala/sim/scheduler.py:553-564, 690-700, 777-824, 961-972, 1238-1250). */
module TwoCore {
  import opened Tasks
  import opened Reachability
  import opened Projection
  import opened GraphOps

  datatype Core = Core(graph: Graph, finished: seq<int>, running: Option<int>)

  /** `full` collects the graphs that were handed to the two cores, `history` the tasks
      in the order in which they finished on either core. */
  datatype System = System(full: Graph, cpu: Core, qpu: Core, history: seq<int>) {
    function Of(proc: ProcessorType): Core {
      if proc.CPU? then cpu else qpu
    }

    function With(proc: ProcessorType, c: Core): System {
      if proc.CPU? then this.(cpu := c) else this.(qpu := c)
    }
  }

  const Initial := System(EmptyGraph, Core(EmptyGraph, [], None), Core(EmptyGraph, [], None), [])

  /** Add: tasks are uploaded to both cores. Poll: a core finds nothing to start.
      Start: a core starts one of its ready tasks. Finish: a task succeeds after
      `duration`. Fail: an entanglement task reports failure. */
  datatype Event =
    | Add(added: Graph)
    | Poll(proc: ProcessorType)
    | Start(proc: ProcessorType, task: int)
    | Finish(proc: ProcessorType, duration: nat)
    | Fail(proc: ProcessorType)

  function Polled(s: System, proc: ProcessorType): Graph {
    UpdateExternal(s.Of(proc).graph, Elements(s.Of(proc.Other()).finished))
  }

  ghost predicate IsDag(g: Graph) {
    Ordered(g) && Closed(g.tasks) && Acyclic(g.tasks)
  }

  ghost predicate Enabled(s: System, e: Event) {
    match e
    case Add(h) => IsDag(h) && h.tasks.Keys !! s.full.tasks.Keys
    case Poll(proc) => s.Of(proc).running.None?
    case Start(proc, t) => s.Of(proc).running.None? && t in Roots(Polled(s, proc), false)
    case Finish(proc, _) => s.Of(proc).running.Some?
    case Fail(proc) =>
      var c := s.Of(proc);
      c.running.Some? && c.running.value in c.graph.tasks && c.graph.tasks[c.running.value].task.IsEpr()
  }

  /** None models a failed assertion of `remove_task`. */
  ghost function Apply(s: System, e: Event): Option<System>
    requires Enabled(s, e)
  {
    match e
    case Add(h) =>
      Some(s.(full := Merge(s.full, h),
              cpu := s.cpu.(graph := Merge(s.cpu.graph, PartialGraph(h, CPU))),
              qpu := s.qpu.(graph := Merge(s.qpu.graph, PartialGraph(h, QPU)))))
    case Poll(proc) =>
      Some(s.With(proc, s.Of(proc).(graph := Polled(s, proc))))
    case Start(proc, t) =>
      Some(s.With(proc, s.Of(proc).(graph := Polled(s, proc), running := Some(t))))
    case Finish(proc, d) =>
      var c := s.Of(proc);
      var left := RemoveTask(DecreaseDeadlines(c.graph, d), c.running.value);
      if left.None? then None
      else Some(s.With(proc, Core(left.value, c.finished + [c.running.value], None))
                 .(history := s.history + [c.running.value]))
    case Fail(proc) =>
      Some(s.With(proc, s.Of(proc).(running := None)))
  }

  ghost predicate StepAt(ss: seq<System>, es: seq<Event>, i: int)
    requires 0 <= i < |es| && |ss| == |es| + 1
  {
    Enabled(ss[i], es[i]) && Apply(ss[i], es[i]) == Some(ss[i + 1])
  }

  ghost predicate IsRun(ss: seq<System>, es: seq<Event>) {
    && |ss| == |es| + 1 && ss[0] == Initial
    && forall i :: 0 <= i < |es| ==> StepAt(ss, es, i)
  }

  // ----- the invariant -----

  /** What the order of one task looks like from its own core: predecessors and
      successors on this core, and the immediate ones on the other. */
  datatype Shape = Shape(task: Task, startTime: Option<int>, preds: set<int>, extPreds: set<int>, succs: set<int>)

  type View = map<int, Shape>

  datatype Views = Views(cpu: View, qpu: View) {
    function Of(proc: ProcessorType): View {
      if proc.CPU? then cpu else qpu
    }
  }

  ghost predicate Consistent(v: View) {
    forall s, t {:trigger s in v[t].succs} :: t in v ==> (s in v[t].succs <==> s in v && t in v[s].preds)
  }

  /** The tasks of one processor. */
  ghost predicate Names(m: TaskMap, proc: ProcessorType, v: View) {
    && v.Keys == TasksOn(m, proc)
    && forall t :: t in v ==> v[t].task == m[t].task && v[t].startTime == m[t].startTime
  }

  ghost predicate Bounded(v: View) {
    forall t :: t in v ==> v[t].preds <= v.Keys && v[t].extPreds !! v.Keys
  }

  ghost predicate Covers(m: TaskMap, v: View) {
    forall t :: t in v && t in m ==> m[t].preds <= v[t].preds + v[t].extPreds
  }

  ghost predicate AreAncestors(m: TaskMap, v: View) {
    forall t, x :: t in v && x in v[t].preds ==> Ancestor(m, x, t)
  }

  ghost predicate AreImmediate(m: TaskMap, v: View) {
    forall t, x :: t in v && x in v[t].extPreds && t in m ==> x in m[t].preds
  }

  /** The view names the tasks of one processor, and its precedences are sound and
      complete for those of the full graph. */
  ghost predicate Sound(m: TaskMap, proc: ProcessorType, v: View) {
    && Names(m, proc, v) && Consistent(v) && Bounded(v)
    && Covers(m, v) && AreAncestors(m, v) && AreImmediate(m, v)
  }

  ghost predicate TaskInv(v: Shape, info: TaskInfo, done: set<int>, otherDone: set<int>) {
    && info.task == v.task && info.startTime == v.startTime
    && info.preds == v.preds - done
    && info.succs == v.succs
    && v.extPreds - otherDone <= info.extPreds <= v.extPreds
  }

  ghost predicate CoreInv(v: View, order: seq<int>, c: Core, otherDone: set<int>) {
    && NoDup(c.finished)
    && Elements(c.finished) <= v.Keys
    && c.graph.tasks.Keys == v.Keys - Elements(c.finished)
    && c.graph.order == Pick(order, c.graph.tasks.Keys)
    && (forall t :: t in c.graph.tasks ==> TaskInv(v[t], c.graph.tasks[t], Elements(c.finished), otherDone))
    && (c.running.Some? ==>
          && c.running.value in c.graph.tasks
          && c.graph.tasks[c.running.value].preds == {}
          && c.graph.tasks[c.running.value].extPreds == {})
  }

  /** Every task comes after all its predecessors. */
  ghost predicate Topological(m: TaskMap, h: seq<int>) {
    forall i :: 0 <= i < |h| ==> h[i] in m && m[h[i]].preds <= Elements(h[..i])
  }

  ghost predicate CoreOk(vs: Views, s: System, proc: ProcessorType) {
    && Sound(s.full.tasks, proc, vs.Of(proc))
    && CoreInv(vs.Of(proc), s.full.order, s.Of(proc), Elements(s.Of(proc.Other()).finished))
    && Elements(s.Of(proc).finished) == Elements(s.history) * vs.Of(proc).Keys
  }

  ghost predicate Inv(vs: Views, s: System) {
    && IsDag(s.full)
    && CoreOk(vs, s, CPU) && CoreOk(vs, s, QPU)
    && NoDup(s.history) && Topological(s.full.tasks, s.history)
  }

  ghost predicate SystemInv(s: System) {
    exists vs :: Inv(vs, s)
  }
}
