/** The order in which one core runs independent tasks with deadlines
    (qoala/sim/scheduler.py:810-816, 913-941, 1191-1206). */
module EdfOrder {
  import opened Tasks
  import opened Reachability
  import opened Projection
  import opened GraphOps
  import opened TwoCore
  import opened TwoCoreSafety
  import opened TwoCoreTheorems
  import opened Deadlines
  import opened EdfStatus

  /** Some call of `update_status` with deadlines enabled, and with the resources of every
      QPU task available, lets `t` start. */
  ghost predicate EdfStarts(g: Graph, proc: ProcessorType, t: int) {
    match proc
    case CPU => exists input, deterministic, status ::
      CpuUpdated(g, input, true, deterministic, status, false) && status.taskId == Some(t)
    case QPU => exists input: QpuInput, deterministic, status ::
      g.tasks.Keys <= input.available && QpuUpdated(g, input, true, deterministic, status, false) && status.taskId == Some(t)
  }

  ghost predicate IsPlain(info: TaskInfo) {
    !info.task.IsEpr() && !info.task.IsEvent() && info.startTime.None?
  }

  /** Neither entanglement nor receive tasks, all with a deadline of their own, without
      precedences or start times. */
  ghost predicate Independent(m: TaskMap, proc: ProcessorType) {
    forall t :: t in TasksOn(m, proc) ==>
      IsPlain(m[t]) && m[t].deadline.Some? && m[t].relDeadlines == map[] && m[t].preds == {}
  }

  /** One upload, after which the core only starts what the EDF scheduler picks. */
  ghost predicate IsEdfRun(g: Graph, ss: seq<System>, es: seq<Event>, proc: ProcessorType) {
    && IsRun(ss, es) && |es| >= 1 && es[0] == Add(g)
    && (forall i :: 1 <= i < |es| ==> !es[i].Add?)
    && (forall i :: 1 <= i < |es| && es[i].Start? && es[i].proc == proc ==>
          EdfStarts(Polled(ss[i], proc), proc, es[i].task))
  }

  ghost predicate Precedes(g: Graph, a: int, b: int) {
    && a in g.tasks && b in g.tasks && g.tasks[a].deadline.Some? && g.tasks[b].deadline.Some?
    && (|| g.tasks[a].deadline.value < g.tasks[b].deadline.value
        || (g.tasks[a].deadline == g.tasks[b].deadline && Before(g.order, a, b)))
  }

  lemma {:induction false} PickNoneOf(s: seq<int>, keep: set<int>)
    requires forall x :: x in s ==> x !in keep
    ensures Pick(s, keep) == []
  {
    if s == [] {
    } else {
      var x := s[0];
      assert x in s;
      assert forall y :: y in s[1..] ==> y in s;
      PickNoneOf(s[1..], keep);
    }
  }

  /** Without waits, the choice is among all roots. */
  lemma PlainChoice(g: Graph, proc: ProcessorType, t: int)
    requires g.order != [] && EdfStarts(g, proc, t) && Roots(g, false) != []
    requires forall u :: u in g.tasks ==> IsPlain(g.tasks[u])
    ensures exists deterministic :: Chosen(g.tasks, Roots(g, false), true, deterministic, t)
  {
    match proc
    case CPU =>
      var input, deterministic, status :|
        CpuUpdated(g, input, true, deterministic, status, false) && status.taskId == Some(t);
      PickAll(Roots(g, false), CpuReadySet(g.tasks, input));
      assert CpuReady(g, input) == Roots(g, false);
      assert Chosen(g.tasks, Roots(g, false), true, deterministic, t);
    case QPU =>
      var input: QpuInput, deterministic, status :|
        g.tasks.Keys <= input.available && QpuUpdated(g, input, true, deterministic, status, false) && status.taskId == Some(t);
      PlainQpu(g, input);
      assert Chosen(g.tasks, Roots(g, false), true, deterministic, t);
  }

  lemma PlainQpu(g: Graph, input: QpuInput)
    requires g.tasks.Keys <= input.available && forall u :: u in g.tasks ==> IsPlain(g.tasks[u])
    ensures NonEprReady(g, input) == Roots(g, false)
    ensures EprReady(g, input) == [] && !BinUnknown(EprAvailable(g, input), input)
  {
    PickAll(Roots(g, false), set t | t in g.tasks && !g.tasks[t].task.IsEpr() && t in input.available);
    PickNoneOf(Roots(g, false), set t | t in g.tasks && g.tasks[t].task.IsEpr() && t in input.available);
  }

  /** The choice has the least deadline, and comes first among those. */
  lemma ChosenIsFirst(m: TaskMap, ready: seq<int>, deterministic: bool, t: int, u: int)
    requires Chosen(m, ready, true, deterministic, t) && u in ready && u != t
    requires forall x :: x in ready ==> x in m && m[x].deadline.Some?
    ensures t in m && m[t].deadline.value <= m[u].deadline.value
    ensures m[t].deadline == m[u].deadline ==> Before(ready, t, u)
  {
    PickAll(ready, WithDeadline(m));
    assert t == FirstMin(ready, DeadlineOf(m));
    FirstMinIsFirst(ready, DeadlineOf(m), u);
  }

  // ----- the state of the core during such a run -----

  lemma {:induction false} FullStays(g: Graph, ss: seq<System>, es: seq<Event>, proc: ProcessorType, i: nat)
    requires IsEdfRun(g, ss, es, proc) && 1 <= i <= |es|
    ensures ss[i].full == g && IsDag(g)
    decreases i
  {
    assert StepAt(ss, es, i - 1);
    if i == 1 {
      MergeEmpty(g);
    } else {
      FullStays(g, ss, es, proc, i - 1);
    }
  }

  /** All queued deadlines have been lowered by the same amount. */
  lemma SameElapsed(g: Graph, ss: seq<System>, es: seq<Event>, proc: ProcessorType, i: nat, t: int)
    requires IsEdfRun(g, ss, es, proc) && 1 <= i <= |es|
    requires t in ss[i].Of(proc).graph.tasks && t in TasksOn(g.tasks, proc)
    requires g.tasks[t].relDeadlines == map[] && g.tasks[t].preds == {}
    ensures ss[i].Of(proc).graph.tasks[t].deadline ==
            Sooner(g.tasks[t].deadline, Elapsed(Completions(ss, es, 1, i, proc)))
  {
    DeadlineLaw(ss, es, 0, i, proc, t);
    assert NoSource(OwnDeadlines(g.tasks, proc, t), Completions(ss, es, 1, i, proc));
  }

  lemma PolledTask(s: System, proc: ProcessorType, t: int)
    requires t in s.Of(proc).graph.tasks
    ensures t in Polled(s, proc).tasks
    ensures Polled(s, proc).tasks[t].deadline == s.Of(proc).graph.tasks[t].deadline
    ensures Polled(s, proc).tasks[t].task == s.Of(proc).graph.tasks[t].task
    ensures Polled(s, proc).tasks[t].startTime == s.Of(proc).graph.tasks[t].startTime
  {
  }

  /** On an independent core, every queued task is a root, and keeps what matters of it. */
  lemma IndependentRoots(g: Graph, ss: seq<System>, es: seq<Event>, proc: ProcessorType, i: nat)
    requires IsEdfRun(g, ss, es, proc) && 1 <= i <= |es| && Independent(g.tasks, proc)
    ensures Roots(Polled(ss[i], proc), false) == ss[i].Of(proc).graph.order
    ensures ss[i].Of(proc).graph.order == Pick(g.order, ss[i].Of(proc).graph.tasks.Keys)
    ensures ss[i].Of(proc).graph.tasks.Keys == TasksOn(g.tasks, proc) - Elements(ss[i].history)
    ensures forall t :: t in Polled(ss[i], proc).tasks ==> IsPlain(Polled(ss[i], proc).tasks[t])
  {
    FullStays(g, ss, es, proc, i);
    RunFacts(ss, es, i);
    assert CoreFacts(ss[i], proc);
    SplitGraphsRefineFullGraph(ss, es, i, proc);
    var keys := ss[i].Of(proc).graph.tasks.Keys;
    PickAgree(g.order, ReadySet(ss[i], proc), keys);
    forall t | t in Polled(ss[i], proc).tasks ensures IsPlain(Polled(ss[i], proc).tasks[t]) {
      PolledTask(ss[i], proc, t);
      StartTimeStays(ss, es, i, proc, t);
      assert t in TasksOn(g.tasks, proc);
    }
  }

  lemma StartTimeStays(ss: seq<System>, es: seq<Event>, i: nat, proc: ProcessorType, t: int)
    requires IsRun(ss, es) && i <= |es| && t in ss[i].Of(proc).graph.tasks
    ensures t in ss[i].full.tasks && ss[i].Of(proc).graph.tasks[t].startTime == ss[i].full.tasks[t].startTime
  {
    RunKeeps(ss, es, i);
    var vs :| Inv(vs, ss[i]);
    assert CoreOk(vs, ss[i], proc);
    assert TaskInv(vs.Of(proc)[t], ss[i].Of(proc).graph.tasks[t], Elements(ss[i].Of(proc).finished),
                   Elements(ss[i].Of(proc.Other()).finished));
  }

  /** Seen by the core, the deadlines are the initial ones less a common amount. */
  ghost predicate Shifted(g: Graph, polled: Graph, amount: int) {
    forall x :: x in polled.tasks ==>
      && x in g.tasks && g.tasks[x].deadline.Some?
      && polled.tasks[x].deadline == Sooner(g.tasks[x].deadline, amount)
  }

  lemma PolledIsShifted(g: Graph, ss: seq<System>, es: seq<Event>, proc: ProcessorType, i: nat)
    requires IsEdfRun(g, ss, es, proc) && 1 <= i <= |es| && Independent(g.tasks, proc)
    ensures Shifted(g, Polled(ss[i], proc), Elapsed(Completions(ss, es, 1, i, proc)))
  {
    IndependentRoots(g, ss, es, proc, i);
    var polled := Polled(ss[i], proc);
    var amount := Elapsed(Completions(ss, es, 1, i, proc));
    forall x | x in polled.tasks
      ensures x in g.tasks && g.tasks[x].deadline.Some? &&
              polled.tasks[x].deadline == Sooner(g.tasks[x].deadline, amount)
    {
      assert x in TasksOn(g.tasks, proc);
      SameElapsed(g, ss, es, proc, i, x);
      PolledTask(ss[i], proc, x);
    }
  }

  lemma ShiftedChoicePrecedes(g: Graph, m: TaskMap, amount: int, ready: seq<int>, deterministic: bool, t: int, u: int)
    requires forall x :: x in ready ==>
               && x in m && x in g.tasks && g.tasks[x].deadline.Some?
               && m[x].deadline == Sooner(g.tasks[x].deadline, amount)
    requires Chosen(m, ready, true, deterministic, t) && u in ready && u != t
    requires Before(ready, t, u) ==> Before(g.order, t, u)
    ensures Precedes(g, t, u)
  {
    ChosenIsFirst(m, ready, deterministic, t, u);
  }

  /** The queue of an independent core: all roots, in upload order. */
  ghost predicate IsQueue(g: Graph, polled: Graph, amount: int) {
    && Shifted(g, polled, amount)
    && Roots(polled, false) == polled.order == Pick(g.order, polled.tasks.Keys)
    && forall x :: x in polled.tasks ==> IsPlain(polled.tasks[x])
  }

  lemma QueueOfCore(g: Graph, ss: seq<System>, es: seq<Event>, proc: ProcessorType, i: nat)
    requires IsEdfRun(g, ss, es, proc) && 1 <= i <= |es| && Independent(g.tasks, proc)
    ensures IsQueue(g, Polled(ss[i], proc), Elapsed(Completions(ss, es, 1, i, proc)))
  {
    IndependentRoots(g, ss, es, proc, i);
    PolledIsShifted(g, ss, es, proc, i);
    var s := ss[i];
    assert Polled(s, proc).tasks.Keys == s.Of(proc).graph.tasks.Keys;
  }

  lemma QueuedIsInOrder(g: Graph, ss: seq<System>, es: seq<Event>, proc: ProcessorType, i: nat, u: int)
    requires IsEdfRun(g, ss, es, proc) && 1 <= i <= |es| && u in ss[i].Of(proc).graph.tasks
    ensures u in Polled(ss[i], proc).order
  {
    RunFacts(ss, es, i);
    assert CoreFacts(ss[i], proc);
    assert u in Elements(ss[i].full.order);
  }

  lemma QueueChoice(g: Graph, polled: Graph, amount: int, proc: ProcessorType, t: int) returns (deterministic: bool)
    requires IsQueue(g, polled, amount) && EdfStarts(polled, proc, t) && polled.order != []
    ensures Chosen(polled.tasks, polled.order, true, deterministic, t)
  {
    PlainChoice(polled, proc, t);
    deterministic :| Chosen(polled.tasks, polled.order, true, deterministic, t);
  }

  lemma QueueMember(g: Graph, polled: Graph, amount: int, x: int)
    requires IsQueue(g, polled, amount) && x in polled.order
    ensures x in polled.tasks && x in g.tasks && g.tasks[x].deadline.Some?
    ensures polled.tasks[x].deadline == Sooner(g.tasks[x].deadline, amount)
  {
    assert x in Pick(g.order, polled.tasks.Keys);
  }

  lemma QueueStartPrecedes(g: Graph, polled: Graph, amount: int, proc: ProcessorType, t: int, u: int)
    requires IsQueue(g, polled, amount) && EdfStarts(polled, proc, t) && u in polled.order && u != t
    ensures Precedes(g, t, u)
  {
    var deterministic := QueueChoice(g, polled, amount, proc, t);
    forall x | x in polled.order
      ensures x in polled.tasks && x in g.tasks && g.tasks[x].deadline.Some?
      ensures polled.tasks[x].deadline == Sooner(g.tasks[x].deadline, amount)
    {
      QueueMember(g, polled, amount, x);
    }
    if Before(polled.order, t, u) {
      PickKeepsBefore(g.order, polled.tasks.Keys, t, u);
    }
    ShiftedChoicePrecedes(g, polled.tasks, amount, polled.order, deterministic, t, u);
  }

  lemma EdfStartsAt(g: Graph, ss: seq<System>, es: seq<Event>, proc: ProcessorType, i: nat)
    requires IsEdfRun(g, ss, es, proc) && 1 <= i < |es| && es[i].Start? && es[i].proc == proc
    ensures EdfStarts(Polled(ss[i], proc), proc, es[i].task)
  {
  }

  /** What starts precedes everything else in the queue. */
  lemma StartPrecedes(g: Graph, ss: seq<System>, es: seq<Event>, proc: ProcessorType, i: nat, u: int)
    requires IsEdfRun(g, ss, es, proc) && 1 <= i < |es| && Independent(g.tasks, proc)
    requires es[i].Start? && es[i].proc == proc
    requires u in ss[i].Of(proc).graph.tasks && u != es[i].task
    ensures Precedes(g, es[i].task, u)
  {
    QueueOfCore(g, ss, es, proc, i);
    QueuedIsInOrder(g, ss, es, proc, i, u);
    EdfStartsAt(g, ss, es, proc, i);
    QueueStartPrecedes(g, Polled(ss[i], proc), Elapsed(Completions(ss, es, 1, i, proc)), proc, es[i].task, u);
  }

  ghost predicate InOrder(g: Graph, c: Core) {
    && (forall u :: c.running.Some? && u in c.graph.tasks && u != c.running.value ==> Precedes(g, c.running.value, u))
    && (forall j, u :: 0 <= j < |c.finished| && u in c.graph.tasks ==> Precedes(g, c.finished[j], u))
    && (forall j, k :: 0 <= j < k < |c.finished| ==> Precedes(g, c.finished[j], c.finished[k]))
  }

  lemma OtherEventsKeepOrder(g: Graph, s: System, e: Event, proc: ProcessorType)
    requires Enabled(s, e) && Apply(s, e).Some? && !e.Add? && InOrder(g, s.Of(proc))
    requires !((e.Start? || e.Finish?) && e.proc == proc)
    ensures InOrder(g, Apply(s, e).value.Of(proc))
  {
    var s' := Apply(s, e).value;
    assert s'.Of(proc).graph.tasks.Keys == s.Of(proc).graph.tasks.Keys;
  }

  lemma FinishKeepsOrder(g: Graph, s: System, proc: ProcessorType, d: nat)
    requires Enabled(s, Finish(proc, d)) && Apply(s, Finish(proc, d)).Some? && InOrder(g, s.Of(proc))
    requires s.Of(proc).running.value in s.Of(proc).graph.tasks
    ensures InOrder(g, Apply(s, Finish(proc, d)).value.Of(proc))
  {
    FinishEffect(s, proc, d);
    var c := s.Of(proc);
    var c' := Apply(s, Finish(proc, d)).value.Of(proc);
    forall j, k | 0 <= j < k < |c'.finished| ensures Precedes(g, c'.finished[j], c'.finished[k]) {
      assert c'.finished[j] == c.finished[j];
    }
    forall j, u | 0 <= j < |c'.finished| && u in c'.graph.tasks ensures Precedes(g, c'.finished[j], u) {
      assert u in c.graph.tasks && u != c.running.value;
    }
  }

  lemma {:induction false} EdfKeepsOrder(g: Graph, ss: seq<System>, es: seq<Event>, proc: ProcessorType, i: nat)
    requires IsEdfRun(g, ss, es, proc) && 1 <= i <= |es| && Independent(g.tasks, proc)
    ensures InOrder(g, ss[i].Of(proc))
    decreases i
  {
    assert StepAt(ss, es, i - 1);
    if i > 1 {
      EdfKeepsOrder(g, ss, es, proc, i - 1);
      var e := es[i - 1];
      if e.Finish? && e.proc == proc {
        RunFacts(ss, es, i - 1);
        assert CoreFacts(ss[i - 1], proc);
        FinishKeepsOrder(g, ss[i - 1], proc, e.duration);
      } else if e.Start? && e.proc == proc {
        forall u | u in ss[i].Of(proc).graph.tasks && u != e.task ensures Precedes(g, e.task, u) {
          StartPrecedes(g, ss, es, proc, i - 1, u);
        }
      } else {
        OtherEventsKeepOrder(g, ss[i - 1], e, proc);
      }
    }
  }

  /** The core finishes its tasks in the order of their initial deadlines, and tasks with
      the same deadline in the order in which they were inserted. */
  lemma EdfFinishesByDeadline(g: Graph, ss: seq<System>, es: seq<Event>, proc: ProcessorType, i: nat, j: nat, k: nat)
    requires IsEdfRun(g, ss, es, proc) && 1 <= i <= |es| && Independent(g.tasks, proc)
    requires j < k < |ss[i].Of(proc).finished|
    ensures Precedes(g, ss[i].Of(proc).finished[j], ss[i].Of(proc).finished[k])
  {
    EdfKeepsOrder(g, ss, es, proc, i);
  }
}
