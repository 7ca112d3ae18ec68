/** The processor schedulers (qoala/sim/scheduler.py:753-824, 827-959, 1002-1236). */
module EdfSchedulers {
  import opened Tasks
  import opened Reachability
  import opened GraphOps
  import opened NetworkSchedule
  import opened TaskGraphs
  import opened EdfStatus
  import opened EdfLaws

  function Externals(m: TaskMap, t: int, finished: set<int>): TaskInfo
    requires t in m
  {
    m[t].(extPreds := m[t].extPreds - finished)
  }

  /** A task that waits for none of its own core loses the external predecessors that have
      finished; any other stays as it was. */
  ghost predicate IsExternalUpdate(m: TaskMap, t: int, finished: seq<int>, info: TaskInfo) {
    && t in m
    && (m[t].preds != {} ==> info == m[t])
    && (m[t].preds == {} ==>
          && info == m[t].(extPreds := info.extPreds)
          && forall p :: p in info.extPreds <==> p in m[t].extPreds && p !in finished)
  }

  /** `UpdateExternal` as the target of a loop over the roots. */
  ghost function AllExternals(m: TaskMap, finished: set<int>): TaskMap {
    map t | t in m :: Externals(m, t, finished)
  }

  lemma ExternalsOfRoots(g: Graph, finished: set<int>)
    requires Ordered(g)
    ensures Mixed(g.tasks, AllExternals(g.tasks, finished), Elements(Roots(g, true))) == UpdateExternal(g, finished).tasks
  {
    var a := Mixed(g.tasks, AllExternals(g.tasks, finished), Elements(Roots(g, true)));
    var b := UpdateExternal(g, finished).tasks;
    forall t | t in g.tasks ensures a[t] == b[t] {
      assert t in Elements(g.order);
      assert t in Elements(Roots(g, true)) <==> g.tasks[t].preds == {};
    }
  }

  /** The dictionary of waits that the QPU scheduler collects. */
  function Waits(ids: seq<int>, input: QpuInput): map<int, int> {
    if input.schedule.Some? then Deltas(ids, input) else map[]
  }

  function Positive(until: map<int, int>): set<int> {
    set t | t in until && until[t] > 0
  }

  lemma WaitsAreDeltas(ids: seq<int>, input: QpuInput)
    ensures Positive(Waits(ids, input)) == BinLater(ids, input)
    ensures forall t :: t in Positive(Waits(ids, input)) ==> Waits(ids, input)[t] == Deltas(ids, input)[t]
  {
    forall t ensures t in BinLater(ids, input) <==> t in Positive(Waits(ids, input)) {
    }
  }

  lemma ScanStep(ids: seq<int>, input: QpuInput, i: nat)
    requires i < |ids|
    ensures var e := ids[i];
            && Pick(ids[..i + 1], BinNow(ids, input)) ==
               Pick(ids[..i], BinNow(ids, input)) + (if TimeUntilBin(input, e) == Some(0) then [e] else [])
            && (TimeUntilBin(input, e).Some? && input.schedule.Some? ==>
                  Waits(ids[..i + 1], input) == Waits(ids[..i], input)[e := TimeUntilBin(input, e).value])
            && (TimeUntilBin(input, e).None? ==> BinUnknown(ids, input))
            && ids[..i + 1] == ids[..i] + [e]
  {
    var e := ids[i];
    assert e in ids && ids[..i + 1] == ids[..i] + [e];
    PickConcat(ids[..i], [e], BinNow(ids, input));
  }

  lemma QpuIsLawful(g: Graph, input: QpuInput, useDeadlines: bool, deterministic: bool, status: SchedulerStatus,
                    raised: bool)
    requires Ordered(g) && QpuUpdated(g, input, useDeadlines, deterministic, status, raised)
    ensures (forall t :: !HasNoBin(g, input, t)) ==> QpuLaw(g, input, useDeadlines, deterministic, status)
  {
    if forall t :: !HasNoBin(g, input, t) {
      QpuObeysLaw(g, input, useDeadlines, deterministic, status, raised);
    }
  }

  class EdfScheduler {
    const tg: TaskGraph
    const useDeadlines: bool
    const deterministic: bool
    var finished: seq<int>
    var status: SchedulerStatus

    constructor (tg: TaskGraph, useDeadlines: bool, deterministic: bool)
      ensures this.tg == tg && this.useDeadlines == useDeadlines && this.deterministic == deterministic
      ensures finished == [] && status == NoStatus
    {
      this.tg, this.useDeadlines, this.deterministic := tg, useDeadlines, deterministic;
      finished, status := [], NoStatus;
    }

    method UpdateExternalPredecessors(otherFinished: seq<int>)
      requires Ordered(tg.Value())
      modifies tg
      ensures tg.Value() == UpdateExternal(old(tg.Value()), Elements(otherFinished))
      ensures forall t :: t in tg.tasks ==> IsExternalUpdate(old(tg.tasks), t, otherFinished, tg.tasks[t])
    {
      ghost var g := tg.Value();
      var done := Elements(otherFinished);
      ghost var target := AllExternals(g.tasks, done);
      var roots := Roots(Graph(tg.order, tg.tasks), true);
      PickNoDup(tg.order, RootSet(tg.tasks, true));
      MixedNone(g.tasks, target);
      assert Elements(roots[..0]) == {};
      for i := 0 to |roots|
        invariant tg.order == g.order && tg.tasks == Mixed(g.tasks, target, Elements(roots[..i]))
      {
        MixedNext(g.tasks, target, roots, i);
        var r := roots[i];
        var info := tg.tasks[r];
        tg.tasks := tg.tasks[r := info.(extPreds := info.extPreds - done)];
      }
      assert roots[..|roots|] == roots;
      ExternalsOfRoots(g, done);
    }

    /** What `handle_task` does with a task that has succeeded. */
    method CompleteTask(id: int, duration: int)
      requires Ordered(tg.Value()) && CanRemove(GraphOps.DecreaseDeadlines(tg.Value(), duration), id)
      modifies tg, `finished
      ensures tg.Value() == GraphOps.RemoveTask(GraphOps.DecreaseDeadlines(old(tg.Value()), duration), id).value
      ensures finished == old(finished) + [id]
    {
      assert GraphOps.DecreaseDeadlines(tg.Value(), duration).tasks.Keys == tg.tasks.Keys;
      tg.DecreaseDeadlines(duration);
      tg.RemoveTask(id);
      finished := finished + [id];
    }

    method Choose(ready: seq<int>) returns (t: int)
      requires ready != []
      ensures Chosen(tg.tasks, ready, useDeadlines, deterministic, t)
    {
      var withDeadline := Pick(ready, WithDeadline(tg.tasks));
      if !useDeadlines {
        withDeadline := [];
      }
      if withDeadline != [] {
        t := FirstMin(withDeadline, DeadlineOf(tg.tasks));
      } else if deterministic {
        t := ready[0];
      } else {
        var index :| 0 <= index < |ready|;
        t := ready[index];
      }
    }

    /** The statements at the end of `update_status` that add the causes to the status. */
    method AddCauses(external: bool, first: Status, hasFirst: bool, second: Status, hasSecond: bool)
      requires status.status == {}
      modifies `status
      ensures status == old(status).(status := Causes(external, first, hasFirst, second, hasSecond))
    {
      if external {
        status := status.(status := status.status + {WaitingOtherCore});
      }
      if hasFirst {
        status := status.(status := status.status + {first});
      }
      if hasSecond {
        status := status.(status := status.status + {second});
      }
    }

    /** The last branch of `update_status`: nothing is ready. */
    method WaitCpu(input: CpuInput)
      requires Ordered(tg.Value()) && status == NoStatus
      modifies `status
      ensures status == CpuWaiting(tg.Value(), input)
    {
      var g := Graph(tg.order, tg.tasks);
      var later := CpuStartsLater(g, input);
      AddCauses(BlockedOnExternal(g) != [], WaitingMsg, CpuBlockedOnMessage(g, input) != [], WaitingStartTime, later != []);
      if later != [] {
        var first := FirstMin(later, StartOf(g.tasks));
        status := status.(startTime := g.tasks[first].startTime);
      }
    }

    /** `raised` models the RuntimeError at the end. */
    method UpdateStatusCpu(input: CpuInput) returns (raised: bool)
      requires Ordered(tg.Value()) && status == NoStatus
      modifies `status
      ensures CpuUpdated(tg.Value(), input, useDeadlines, deterministic, status, raised)
      ensures CpuLaw(tg.Value(), input, useDeadlines, deterministic, status)
    {
      var g := Graph(tg.order, tg.tasks);
      if |tg.order| == 0 {
        status := SchedulerStatus({GraphEmpty}, None, None, None);
        CpuObeysLaw(g, input, useDeadlines, deterministic, status, false);
        return false;
      }
      var ready := CpuReady(g, input);
      if |ready| > 0 {
        var t := Choose(ready);
        status := SchedulerStatus({NextTask}, Some(t), None, None);
        CpuObeysLaw(g, input, useDeadlines, deterministic, status, false);
        return false;
      }
      WaitCpu(input);
      raised := status.status == {};
      CpuObeysLaw(g, input, useDeadlines, deterministic, status, raised);
    }
 
    /** The loop over the entanglement tasks: which can run now, and how long the others
        have to wait. `failed` models an exception of `next_specific_bin`. */
    method ScanBins(candidates: seq<int>, input: QpuInput) returns (failed: bool, ready: seq<int>, until: map<int, int>)
      ensures failed == BinUnknown(candidates, input)
      ensures !failed ==> ready == Pick(candidates, BinNow(candidates, input))
      ensures !failed ==> until == Waits(candidates, input)
    {
      failed, ready, until := false, [], map[];
      for i := 0 to |candidates|
        invariant forall t :: t in candidates[..i] ==> TimeUntilBin(input, t).Some?
        invariant ready == Pick(candidates[..i], BinNow(candidates, input))
        invariant until == Waits(candidates[..i], input)
      {
        var e := candidates[i];
        ScanStep(candidates, input, i);
        var delta := TimeUntilBin(input, e);
        if delta.None? {
          return true, [], map[];
        }
        if input.schedule.Some? {
          until := until[e := delta.value];
        }
        if delta.value == 0 {
          ready := ready + [e];
        }
      }
      assert candidates[..|candidates|] == candidates;
    }

    method WaitQpu(input: QpuInput, until: map<int, int>)
      requires status == NoStatus
      requires until == Waits(EprAvailable(tg.Value(), input), input)
      modifies `status
      ensures status == QpuWaiting(tg.Value(), input)
    {
      var g := Graph(tg.order, tg.tasks);
      var later := Pick(EprAvailable(g, input), Positive(until));
      WaitsAreDeltas(EprAvailable(g, input), input);
      AddCauses(BlockedOnExternal(g) != [], WaitingResources, BlockedOnResources(g, input) != [],
                WaitingTimeBin, later != []);
      if later != [] {
        SameKeysSameMin(later, until, Deltas(EprAvailable(g, input), input));
        status := status.(delta := Some(until[FirstMin(later, until)]));
      }
    }

    method UpdateStatusQpu(input: QpuInput) returns (raised: bool)
      requires Ordered(tg.Value()) && status == NoStatus
      modifies `status
      ensures QpuUpdated(tg.Value(), input, useDeadlines, deterministic, status, raised)
      ensures (forall t :: !HasNoBin(tg.Value(), input, t)) ==> QpuLaw(tg.Value(), input, useDeadlines, deterministic, status)
    {
      var g := Graph(tg.order, tg.tasks);
      if |tg.order| == 0 {
        status := SchedulerStatus({GraphEmpty}, None, None, None);
        QpuIsLawful(g, input, useDeadlines, deterministic, status, false);
        return false;
      }
      var failed, eprReady, until := ScanBins(EprAvailable(g, input), input);
      if failed {
        QpuIsLawful(g, input, useDeadlines, deterministic, status, true);
        return true;
      }
      var nonEprReady := NonEprReady(g, input);
      if |eprReady| > 0 {
        status := SchedulerStatus({EprGen}, Some(eprReady[0]), None, None);
        QpuIsLawful(g, input, useDeadlines, deterministic, status, false);
        return false;
      }
      if |nonEprReady| > 0 {
        var t := Choose(nonEprReady);
        status := SchedulerStatus({NextTask}, Some(t), None, None);
        QpuIsLawful(g, input, useDeadlines, deterministic, status, false);
        return false;
      }
      WaitQpu(input, until);
      raised := status.status == {};
      QpuIsLawful(g, input, useDeadlines, deterministic, status, raised);
    }
  }
}
