/** What holds in every run of the two cores, under any interleaving. */
module TwoCoreTheorems {
  import opened Tasks
  import opened Reachability
  import opened Projection
  import opened GraphOps
  import opened TwoCore
  import opened TwoCoreSafety

  // ----- safety -----

  /** In every reachable state, the roots a core sees after updating its external
      predecessors are exactly its unfinished tasks whose predecessors in the full graph
      have all finished, in upload order. */
  lemma SplitGraphsRefineFullGraph(ss: seq<System>, es: seq<Event>, i: nat, proc: ProcessorType)
    requires IsRun(ss, es) && i < |ss|
    ensures Roots(Polled(ss[i], proc), false) == Pick(ss[i].full.order, ReadySet(ss[i], proc))
  {
    var s := ss[i];
    RunFacts(ss, es, i);
    RunReady(ss, es, i, proc);
    assert CoreFacts(s, proc);
    var keys := s.Of(proc).graph.tasks.Keys;
    PickPick(s.full.order, keys, ReadySet(s, proc));
    assert keys * ReadySet(s, proc) == ReadySet(s, proc);
  }

  /** The assertions of `remove_task`: the task is a root but for external predecessors, and
      each of its successors is there and has it as a predecessor. */
  ghost predicate AssertionsHold(g: Graph, t: int) {
    && t in g.tasks && t in g.order && g.tasks[t].preds == {}
    && forall s :: s in g.tasks[t].succs ==> s in g.tasks && t in g.tasks[s].preds
  }

  lemma RemovableAssertions(g: Graph, d: nat, t: int)
    requires CanRemove(DecreaseDeadlines(g, d), t)
    ensures AssertionsHold(g, t)
  {
    var lowered := DecreaseDeadlines(g, d).tasks;
    assert t in g.tasks && lowered[t].preds == g.tasks[t].preds;
    forall s | s in g.tasks[t].succs ensures s in g.tasks && t in g.tasks[s].preds {
      assert s in lowered[t].succs;
    }
  }

  /** `remove_task` never fails one of its assertions. */
  lemma NoAssertionFails(ss: seq<System>, es: seq<Event>, i: nat, e: Event)
    requires IsRun(ss, es) && i < |ss| && Enabled(ss[i], e)
    ensures Apply(ss[i], e).Some?
    ensures e.Finish? ==> AssertionsHold(ss[i].Of(e.proc).graph, ss[i].Of(e.proc).running.value)
  {
    RunStep(ss, es, i, e);
    if e.Finish? {
      RunKeeps(ss, es, i);
      var vs :| Inv(vs, ss[i]);
      FinishIsRemovable(vs, ss[i], e.proc, e.duration);
      RemovableAssertions(ss[i].Of(e.proc).graph, e.duration, ss[i].Of(e.proc).running.value);
    }
  }

  /** A task that failed stays queued: nothing else changes, it has not finished, and it may
      start again at once. */
  lemma FailedTaskMayRetry(ss: seq<System>, es: seq<Event>, i: nat, proc: ProcessorType)
    requires IsRun(ss, es) && i < |es| && es[i] == Fail(proc)
    ensures ss[i].Of(proc).running.Some?
    ensures var t := ss[i].Of(proc).running.value;
            && Enabled(ss[i + 1], Start(proc, t)) && t !in ss[i + 1].history
            && ss[i + 1].history == ss[i].history && ss[i + 1].full == ss[i].full
            && ss[i + 1].Of(proc).graph == ss[i].Of(proc).graph && ss[i + 1].Of(proc.Other()) == ss[i].Of(proc.Other())
  {
    assert StepAt(ss, es, i);
    RunKeeps(ss, es, i);
    var t := ss[i].Of(proc).running.value;
    RunningStaysReady(ss[i], proc);
    RunFacts(ss, es, i);
    assert CoreFacts(ss[i], proc);
  }

  lemma RootStaysRoot(g: Graph, finished: set<int>, t: int)
    requires t in g.order && t in g.tasks && g.tasks[t].preds == {} && g.tasks[t].extPreds == {}
    ensures t in Roots(UpdateExternal(g, finished), false)
  {
    assert UpdateExternal(g, finished).tasks[t].extPreds == {};
  }

  lemma RunningIsFree(v: View, order: seq<int>, c: Core, otherDone: set<int>)
    requires CoreInv(v, order, c, otherDone) && c.running.Some? && c.running.value in order
    ensures var t := c.running.value;
            t in c.graph.order && t in c.graph.tasks && c.graph.tasks[t].preds == {} && c.graph.tasks[t].extPreds == {}
  {
  }

  lemma RunningIsOrdered(vs: Views, s: System, proc: ProcessorType)
    requires Inv(vs, s) && s.Of(proc).running.Some?
    ensures s.Of(proc).running.value in s.full.order
  {
    assert CoreOk(vs, s, proc);
    assert s.Of(proc).running.value in Elements(s.full.order);
  }

  lemma RunningStaysReady(s: System, proc: ProcessorType)
    requires SystemInv(s) && s.Of(proc).running.Some?
    ensures s.Of(proc).running.value in Roots(Polled(s, proc), false)
  {
    var vs :| Inv(vs, s);
    RunningIsOrdered(vs, s, proc);
    assert CoreOk(vs, s, proc);
    RunningIsFree(vs.Of(proc), s.full.order, s.Of(proc), Elements(s.Of(proc.Other()).finished));
    RootStaysRoot(s.Of(proc).graph, Elements(s.Of(proc.Other()).finished), s.Of(proc).running.value);
  }

  lemma TopologicalIsClosed(m: TaskMap, h: seq<int>, a: int, t: int)
    requires Acyclic(m) && Topological(m, h) && Ancestor(m, a, t)
    requires t in m && m[t].preds <= Elements(h)
    ensures a in h
  {
    HistoryClosed(m, h);
    ClosedUnderAncestor(m, Elements(h) + {t}, a, t);
    assert t in m && a != t;
  }

  /** When a task starts, every one of its ancestors has finished, and it itself has not. */
  lemma StartsAfterItsAncestors(ss: seq<System>, es: seq<Event>, i: nat, a: int)
    requires IsRun(ss, es) && i < |es| && es[i].Start?
    requires Ancestor(ss[i].full.tasks, a, es[i].task)
    ensures a in ss[i].history && es[i].task !in ss[i].history
  {
    RunFacts(ss, es, i);
    RunReady(ss, es, i, es[i].proc);
    assert StepAt(ss, es, i);
    assert es[i].task in ReadySet(ss[i], es[i].proc);
    TopologicalIsClosed(ss[i].full.tasks, ss[i].history, a, es[i].task);
  }

  lemma TopologicalPrefix(m: TaskMap, h: seq<int>, j: nat)
    requires Topological(m, h) && j < |h|
    ensures Topological(m, h[..j]) && h[j] in m && m[h[j]].preds <= Elements(h[..j])
  {
    forall l | 0 <= l < j ensures h[l] in m && m[h[l]].preds <= Elements(h[..j][..l]) {
      assert h[..j][..l] == h[..l];
    }
  }

  /** The order in which tasks finish, over both cores, never puts a task before one of
      its ancestors, and never repeats a task. */
  lemma FinishOrderIsTopological(ss: seq<System>, es: seq<Event>, i: nat, j: nat, k: nat)
    requires IsRun(ss, es) && i < |ss| && j < k < |ss[i].history|
    ensures ss[i].history[j] != ss[i].history[k]
    ensures !Ancestor(ss[i].full.tasks, ss[i].history[k], ss[i].history[j])
  {
    RunFacts(ss, es, i);
    var h := ss[i].history;
    var m := ss[i].full.tasks;
    TopologicalPrefix(m, h, j);
    assert h[k] !in h[..j];
    if Ancestor(m, h[k], h[j]) {
      TopologicalIsClosed(m, h[..j], h[k], h[j]);
    }
  }

  // ----- progress -----

  ghost predicate CanWork(s: System, proc: ProcessorType) {
    s.Of(proc).running.Some? || Roots(Polled(s, proc), false) != []
  }

  /** As long as a task is unfinished, one of the cores is running or has a ready task. */
  lemma DeadlockFree(ss: seq<System>, es: seq<Event>, i: nat, t: int)
    requires IsRun(ss, es) && i < |ss|
    requires t in ss[i].full.tasks && t !in ss[i].history
    ensures CanWork(ss[i], CPU) || CanWork(ss[i], QPU)
  {
    RunFacts(ss, es, i);
    var s := ss[i];
    var m := s.full.tasks;
    var r := MinimalMember(m, m.Keys - Elements(s.history), t);
    forall p | p in m[r].preds ensures p in Elements(s.history) {
      assert p !in m.Keys - Elements(s.history);
    }
    var proc := Proc(m, r);
    assert r in ReadySet(s, proc);
    SplitGraphsRefineFullGraph(ss, es, i, proc);
    assert r in Elements(s.full.order);
    assert r in Roots(Polled(s, proc), false);
  }

  /** Starts and finishes; the other events leave the work to be done unchanged. */
  function Work(es: seq<Event>): nat {
    if es == [] then 0
    else
      var e := es[|es| - 1];
      Work(es[..|es| - 1]) + if e.Start? || e.Finish? then 1 else 0
  }

  ghost function Queued(s: System): nat {
    |s.cpu.graph.tasks.Keys| + |s.qpu.graph.tasks.Keys|
  }

  ghost function Busy(s: System): nat {
    (if s.cpu.running.Some? then 1 else 0) + (if s.qpu.running.Some? then 1 else 0)
  }

  /** One graph is uploaded, and every task that starts succeeds. */
  ghost predicate IsReliableRun(g: Graph, ss: seq<System>, es: seq<Event>) {
    && IsRun(ss, es) && |es| >= 1 && es[0] == Add(g)
    && forall i :: 1 <= i < |es| ==> !es[i].Add? && !es[i].Fail?
  }

  lemma MergeEmpty(g: Graph)
    ensures Merge(EmptyGraph, g) == g
  {
    assert [] + g.order == g.order;
    assert map[] + g.tasks == g.tasks;
  }

  lemma UploadQueuesEverything(g: Graph)
    requires IsDag(g)
    ensures Apply(Initial, Add(g)).Some?
    ensures var s := Apply(Initial, Add(g)).value;
            s.full == g && Queued(s) == |g.tasks.Keys| && Busy(s) == 0
  {
    assert g.tasks.Keys !! EmptyGraph.tasks.Keys;
    MergeEmpty(g);
    MergeEmpty(PartialGraph(g, CPU));
    MergeEmpty(PartialGraph(g, QPU));
    PartialKeys(g.tasks, CPU);
    PartialKeys(g.tasks, QPU);
    ProcessorsSplit(g.tasks, TasksOn(g.tasks, CPU), TasksOn(g.tasks, QPU));
  }

  lemma PartialKeys(m: TaskMap, proc: ProcessorType)
    requires Acyclic(m) && Closed(m)
    ensures PartialTasks(m, proc).Keys == TasksOn(m, proc)
  {
  }

  lemma ProcessorsSplit(m: TaskMap, c: set<int>, q: set<int>)
    requires forall t :: t in c <==> t in m && Proc(m, t) == CPU
    requires forall t :: t in q <==> t in m && Proc(m, t) == QPU
    ensures |c| + |q| == |m.Keys|
  {
    forall t | t in m ensures t in c || t in q {
      assert Proc(m, t) == CPU || Proc(m, t) == QPU;
    }
    forall t | t in c ensures t in m && t !in q {
      assert Proc(m, t) == CPU;
    }
    forall t | t in q ensures t in m {
      assert Proc(m, t) == QPU;
    }
    assert c + q == m.Keys;
  }

  ghost function Left(s: System): int {
    2 * Queued(s) - Busy(s)
  }

  lemma PollCounts(s: System, proc: ProcessorType)
    requires Enabled(s, Poll(proc))
    ensures Apply(s, Poll(proc)).value.full == s.full && Left(Apply(s, Poll(proc)).value) == Left(s)
  {
    assert Polled(s, proc).tasks.Keys == s.Of(proc).graph.tasks.Keys;
  }

  lemma StartCounts(s: System, proc: ProcessorType, t: int)
    requires Enabled(s, Start(proc, t))
    ensures Apply(s, Start(proc, t)).value.full == s.full && Left(Apply(s, Start(proc, t)).value) + 1 == Left(s)
  {
    assert Polled(s, proc).tasks.Keys == s.Of(proc).graph.tasks.Keys;
  }

  lemma FinishCounts(s: System, proc: ProcessorType, d: nat)
    requires Enabled(s, Finish(proc, d)) && Apply(s, Finish(proc, d)).Some?
    ensures Apply(s, Finish(proc, d)).value.full == s.full && Left(Apply(s, Finish(proc, d)).value) + 1 == Left(s)
  {
    var c := s.Of(proc);
    RemovedTask(c.graph, c.running.value, d, c.running.value);
    FinishEffect(s, proc, d);
  }

  lemma StepsCount(s: System, e: Event)
    requires Enabled(s, e) && !e.Add? && !e.Fail? && Apply(s, e).Some?
    ensures Apply(s, e).value.full == s.full && Left(Apply(s, e).value) + (if e.Poll? then 0 else 1) == Left(s)
  {
    match e
    case Poll(proc) => PollCounts(s, proc);
    case Start(proc, t) => StartCounts(s, proc, t);
    case Finish(proc, d) => FinishCounts(s, proc, d);
  }

  lemma BusyIsQueued(s: System)
    requires CoreFacts(s, CPU) && CoreFacts(s, QPU)
    ensures Busy(s) <= Queued(s)
  {
    if s.cpu.running.Some? { assert s.cpu.running.value in s.cpu.graph.tasks.Keys; }
    if s.qpu.running.Some? { assert s.qpu.running.value in s.qpu.graph.tasks.Keys; }
  }

  /** Every start and every finish uses up one of the two units of work that each task
      brings. */
  lemma {:induction false} WorkIsConserved(g: Graph, ss: seq<System>, es: seq<Event>, i: nat)
    requires IsReliableRun(g, ss, es) && 1 <= i <= |es|
    ensures Work(es[..i]) + Left(ss[i]) == 2 * |g.tasks.Keys|
    ensures ss[i].full == g
    decreases i
  {
    if i == 1 {
      WorkStarts(g, ss, es);
    } else {
      WorkIsConserved(g, ss, es, i - 1);
      WorkGoesOn(ss, es, i);
    }
  }

  /** So no run has more than two such events per task, however long it polls. */
  lemma WorkIsBounded(g: Graph, ss: seq<System>, es: seq<Event>)
    requires IsReliableRun(g, ss, es)
    ensures Work(es) <= 2 * |g.tasks.Keys|
  {
    WorkIsConserved(g, ss, es, |es|);
    assert es[..|es|] == es;
    RunFacts(ss, es, |es|);
    BusyIsQueued(ss[|es|]);
  }

  lemma WorkStarts(g: Graph, ss: seq<System>, es: seq<Event>)
    requires IsReliableRun(g, ss, es)
    ensures Work(es[..1]) == 0 && ss[1].full == g && Queued(ss[1]) == |g.tasks.Keys| && Busy(ss[1]) == 0
  {
    assert StepAt(ss, es, 0);
    UploadQueuesEverything(g);
    assert es[..1][..0] == [];
  }

  lemma WorkGoesOn(ss: seq<System>, es: seq<Event>, i: nat)
    requires IsRun(ss, es) && 1 <= i <= |es| && !es[i - 1].Add? && !es[i - 1].Fail?
    ensures ss[i].full == ss[i - 1].full
    ensures Work(es[..i]) + Left(ss[i]) == Work(es[..i - 1]) + Left(ss[i - 1])
  {
    assert StepAt(ss, es, i - 1);
    StepsCount(ss[i - 1], es[i - 1]);
    assert es[..i][..i - 1] == es[..i - 1];
  }

  lemma CannotWork(s: System, proc: ProcessorType)
    requires forall e: Event :: e.Start? || e.Finish? ==> !Enabled(s, e)
    ensures !CanWork(s, proc)
  {
    assert !Enabled(s, Finish(proc, 0));
    var roots := Roots(Polled(s, proc), false);
    assert roots != [] ==> !Enabled(s, Start(proc, roots[0]));
  }

  lemma MaximalRunFinishesEveryTask(ss: seq<System>, es: seq<Event>)
    requires IsRun(ss, es)
    requires forall e: Event :: e.Start? || e.Finish? ==> !Enabled(ss[|es|], e)
    ensures Elements(ss[|es|].history) == ss[|es|].full.tasks.Keys
  {
    var s := ss[|es|];
    RunFacts(ss, es, |es|);
    HistoryClosed(s.full.tasks, s.history);
    CannotWork(s, CPU);
    CannotWork(s, QPU);
    forall t | t in s.full.tasks ensures t in Elements(s.history) {
      if t !in s.history {
        DeadlockFree(ss, es, |es|, t);
      }
    }
  }

  /** A run that cannot be continued by a start or a finish has finished every task of
      the graph exactly once, after exactly one start and one finish for each. */
  lemma MaximalRunFinishesEveryTaskOnce(g: Graph, ss: seq<System>, es: seq<Event>)
    requires IsReliableRun(g, ss, es)
    requires forall e: Event :: e.Start? || e.Finish? ==> !Enabled(ss[|es|], e)
    ensures NoDup(ss[|es|].history) && Elements(ss[|es|].history) == g.tasks.Keys
    ensures ss[|es|].cpu.graph.tasks.Keys == {} && ss[|es|].qpu.graph.tasks.Keys == {}
    ensures Work(es) == 2 * |g.tasks.Keys|
  {
    RunFacts(ss, es, |es|);
    WorkIsConserved(g, ss, es, |es|);
    assert es[..|es|] == es;
    MaximalRunFinishesEveryTask(ss, es);
    BusyIsQueued(ss[|es|]);
  }
}
