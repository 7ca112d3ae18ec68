/** Tasks that wait for the network, in runs: no receive task starts before its message is
    there, and no pair is generated outside its time bin. */
module WaitingTasks {
  import opened Tasks
  import opened Projection
  import opened GraphOps
  import opened NetworkSchedule
  import opened TwoCore
  import opened TwoCoreSafety
  import opened Programs
  import opened SharedPointers
  import opened EdfStatus
  import opened EdfLaws
  import opened SchedulerRuns
  import opened BlockTheorems
  import opened NodeRuns

  /** With this input, the CPU scheduler may pick task `t` in system state `s`. */
  ghost predicate CpuPicks(s: System, input: CpuInput, t: int) {
    exists useDeadlines, deterministic, status, raised ::
      CpuUpdated(Polled(s, CPU), input, useDeadlines, deterministic, status, raised) && status.taskId == Some(t)
  }

  lemma PickedMayStart(s: System, input: CpuInput, t: int)
    requires SystemInv(s) && CpuPicks(s, input, t)
    ensures MayStart(Polled(s, CPU), input, t)
  {
    var useDeadlines, deterministic, status, raised :|
      CpuUpdated(Polled(s, CPU), input, useDeadlines, deterministic, status, raised) && status.taskId == Some(t);
    PolledIsOrdered(s, CPU);
    CpuStartsIffSomeMay(Polled(s, CPU), input, useDeadlines, deterministic, status, raised);
  }

  lemma PolledKind(s: System, proc: ProcessorType, t: int)
    requires SystemInv(s) && t in Polled(s, proc).tasks
    ensures t in s.full.tasks && Polled(s, proc).tasks[t].task == s.full.tasks[t].task
    ensures Polled(s, proc).tasks[t].startTime == s.full.tasks[t].startTime
  {
    QueuedFacts(s, proc, t);
    var vs :| Inv(vs, s);
    assert CoreOk(vs, s, proc);
    assert TaskInv(vs.Of(proc)[t], s.Of(proc).graph.tasks[t], Elements(s.Of(proc).finished),
                   Elements(s.Of(proc.Other()).finished));
  }

  /** In every run: what the CPU scheduler picks is no uploaded receive task without its
      message, and no task before its start time. */
  lemma PickedTaskIsDue(ss: seq<System>, es: seq<Event>, k: nat, i: nat, input: CpuInput, t: int)
    requires IsRun(ss, es) && k < i <= |es| && es[k].Add? && t in es[k].added.tasks
    requires CpuPicks(ss[i], input, t)
    ensures es[k].added.tasks[t].task.kind.HostEvent? ==> t in input.messages
    ensures var start := es[k].added.tasks[t].startTime; start.Some? ==> start.value <= input.now
  {
    RunKeeps(ss, es, i);
    PickedMayStart(ss[i], input, t);
    PolledKind(ss[i], CPU, t);
    AddedStays(ss, es, k, i, t);
  }

  /** The task of an uploaded receive block never starts while its message is missing. */
  lemma NoReceiveWithoutMessage(ss: seq<System>, es: seq<Event>, k: nat, i: nat, input: CpuInput, b: Block, pid: int,
                                tm: Timing, first: int)
    requires IsRun(ss, es) && k < i < |es| && es[k] == Add(BlockGraph(b, pid, tm, first)) && b.kind.CC?
    requires es[i].Start? && es[i].proc == CPU && CpuPicks(ss[i], input, es[i].task)
    ensures es[i].task == first ==> first in input.messages
  {
    ReceiveBlock(b, pid, tm, first);
    if es[i].task == first {
      PickedTaskIsDue(ss, es, k, i, input, first);
    }
  }

  /** Nor does it in a run of the node, whichever programs it runs and wherever they jump. */
  lemma NodeNeverReceivesEarly(ns: seq<Node>, es: seq<NodeEvent>, i: nat, input: CpuInput, l: Placement)
    requires IsNodeRun(ns, es) && i < |es| && l in ns[i].log && l.block.kind.CC?
    requires es[i] == NodeEvent.Run(Start(CPU, l.first)) && CpuPicks(ns[i].sys, input, l.first)
    ensures l.first in input.messages
  {
    NodeRunKeeps(ns, es, i);
    PickedMayStart(ns[i].sys, input, l.first);
    PolledKind(ns[i].sys, CPU, l.first);
    PlacedAt(ns[i], l, l.first);
    ReceiveBlock(l.block, l.pid, ns[i].programs[l.pid].timing, l.first);
  }

  // ----- pairs -----

  ghost predicate QpuPicks(s: System, input: QpuInput, t: int) {
    exists useDeadlines, deterministic, status, raised ::
      QpuUpdated(Polled(s, QPU), input, useDeadlines, deterministic, status, raised) && status.taskId == Some(t)
  }

  lemma PickedIsDue(s: System, input: QpuInput, t: int)
    requires SystemInv(s) && QpuPicks(s, input, t)
    ensures MayPair(Polled(s, QPU), input, t) || MayRun(Polled(s, QPU), input, t)
  {
    var useDeadlines, deterministic, status, raised :|
      QpuUpdated(Polled(s, QPU), input, useDeadlines, deterministic, status, raised) && status.taskId == Some(t);
    PolledIsOrdered(s, QPU);
    QpuTaskIsDue(Polled(s, QPU), input, useDeadlines, deterministic, status, raised);
  }

  /** A network schedule that starts at zero, and in which the bin of the task occurs once. */
  ghost predicate InCalendar(s: Schedule, input: QpuInput, t: int) {
    s.Fits() && s.firstBin == 0 && t in input.bins && Once(s.pattern, input.bins[t])
  }

  /** In every run: what the QPU scheduler picks has its resources, and an uploaded pair task
      is only picked when its bin starts. */
  lemma NoPairOutsideItsBin(ss: seq<System>, es: seq<Event>, k: nat, i: nat, input: QpuInput, t: int)
    requires IsRun(ss, es) && k < i <= |es| && es[k].Add? && t in es[k].added.tasks
    requires QpuPicks(ss[i], input, t)
    ensures t in input.available
    ensures var kind := es[k].added.tasks[t].task.kind;
            (kind.SinglePair? || kind.MultiPair?) && input.schedule.Some? && InCalendar(input.schedule.value, input, t) ==>
              BinAt(input.schedule.value, input.now) == Some(input.bins[t])
  {
    RunKeeps(ss, es, i);
    PickedIsDue(ss[i], input, t);
    PolledKind(ss[i], QPU, t);
    AddedStays(ss, es, k, i, t);
    WaitIsUntilBin(input, t);
  }
}
