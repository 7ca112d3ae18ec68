/** What the two schedulers do, said of the tasks in the graph alone: their kinds, start
    times and deadlines, the messages that are there, the resources that are free and the
    calendar of time bins (qoala/sim/scheduler.py:869-959, 1114-1236). */
module EdfLaws {
  import opened Tasks
  import opened GraphOps
  import opened NetworkSchedule
  import opened EdfStatus

  /** Nothing precedes the task, on either core. */
  ghost predicate IsFree(g: Graph, t: int) {
    t in g.tasks && g.tasks[t].preds == {} && g.tasks[t].extPreds == {}
  }

  lemma FreeIsRoot(g: Graph, t: int)
    requires Ordered(g)
    ensures t in Roots(g, false) <==> IsFree(g, t)
  {
    assert t in g.tasks ==> t in Elements(g.order);
  }

  lemma SomeTaskInOrder(g: Graph, t: int)
    requires Ordered(g) && t in g.tasks
    ensures g.order != []
  {
    assert t in Elements(g.order);
  }

  // ----- choosing -----

  /** The choice among ready tasks: the least deadline, the first of those in the order of
      the graph; and if no deadline counts, the first ready task. */
  ghost predicate IsPreferred(g: Graph, useDeadlines: bool, deterministic: bool, ready: set<int>, t: int) {
    && t in g.tasks
    && (useDeadlines ==> forall u :: u in ready && u in g.tasks && g.tasks[u].deadline.Some? ==>
          && g.tasks[t].deadline.Some? && g.tasks[t].deadline.value <= g.tasks[u].deadline.value
          && (g.tasks[t].deadline == g.tasks[u].deadline && u != t ==> Before(g.order, t, u)))
    && (deterministic && (!useDeadlines || forall u :: u in ready && u in g.tasks ==> g.tasks[u].deadline.None?) ==>
          forall u :: u in ready && u != t ==> Before(g.order, t, u))
  }

  /** The sequence has the elements of the set, in the order of the graph. */
  ghost predicate Lists(s: seq<int>, order: seq<int>, ready: set<int>) {
    && (forall t :: t in s <==> t in ready)
    && (forall a, b :: Before(s, a, b) ==> Before(order, a, b))
  }

  lemma PickLists(g: Graph, keep: set<int>, ready: set<int>)
    requires Ordered(g) && forall t :: t in ready <==> IsFree(g, t) && t in keep
    ensures Lists(Pick(Roots(g, false), keep), g.order, ready)
  {
    var s := Pick(Roots(g, false), keep);
    forall t ensures t in s <==> t in ready {
      FreeIsRoot(g, t);
    }
    forall a, b | Before(s, a, b) ensures Before(g.order, a, b) {
      PickKeepsBefore(Roots(g, false), keep, a, b);
      PickKeepsBefore(g.order, RootSet(g.tasks, false), a, b);
    }
  }

  lemma LeastIsPreferred(m: TaskMap, s: seq<int>, t: int, u: int)
    requires Pick(s, WithDeadline(m)) != [] && t == FirstMin(Pick(s, WithDeadline(m)), DeadlineOf(m))
    requires u in s && u in m && m[u].deadline.Some?
    ensures t in m && m[t].deadline.Some? && m[t].deadline.value <= m[u].deadline.value
    ensures m[t].deadline == m[u].deadline && u != t ==> Before(s, t, u)
  {
    var with := Pick(s, WithDeadline(m));
    assert u in with && t in with;
    FirstMinIsFirst(with, DeadlineOf(m), u);
    if m[t].deadline == m[u].deadline && u != t {
      PickKeepsBefore(s, WithDeadline(m), t, u);
    }
  }

  lemma FirstComesBefore(s: seq<int>, u: int)
    requires u in s && u != s[0]
    ensures Before(s, s[0], u)
  {
    var j :| 0 <= j < |s| && s[j] == u;
    assert 0 < j;
  }

  lemma NoneWithDeadline(m: TaskMap, s: seq<int>)
    requires forall u :: u in s && u in m ==> m[u].deadline.None?
    ensures Pick(s, WithDeadline(m)) == []
  {
    var with := Pick(s, WithDeadline(m));
    if with != [] {
      var u := FirstIsIn(with);
      assert false;
    }
  }

  lemma ChosenIsPreferred(g: Graph, s: seq<int>, ready: set<int>, useDeadlines: bool, deterministic: bool, t: int)
    requires Chosen(g.tasks, s, useDeadlines, deterministic, t) && Lists(s, g.order, ready) && t in g.tasks
    ensures t in ready && IsPreferred(g, useDeadlines, deterministic, ready, t)
  {
    var with := Pick(s, WithDeadline(g.tasks));
    if useDeadlines {
      forall u | u in ready && u in g.tasks && g.tasks[u].deadline.Some?
        ensures g.tasks[t].deadline.Some? && g.tasks[t].deadline.value <= g.tasks[u].deadline.value
        ensures g.tasks[t].deadline == g.tasks[u].deadline && u != t ==> Before(g.order, t, u)
      {
        assert u in s && u in with;
        LeastIsPreferred(g.tasks, s, t, u);
      }
    }
    if deterministic && (!useDeadlines || forall u :: u in ready && u in g.tasks ==> g.tasks[u].deadline.None?) {
      if useDeadlines {
        NoneWithDeadline(g.tasks, s);
      }
      forall u | u in ready && u != t ensures Before(g.order, t, u) {
        FirstComesBefore(s, u);
      }
    }
  }

  // ----- CPU -----

  /** A receive task is held back until its message is there, any task until its start time. */
  ghost predicate MayStart(g: Graph, input: CpuInput, t: int) {
    && IsFree(g, t)
    && (g.tasks[t].task.kind.HostEvent? ==> t in input.messages)
    && (g.tasks[t].startTime.Some? ==> g.tasks[t].startTime.value <= input.now)
  }

  ghost function Startable(g: Graph, input: CpuInput): (r: set<int>)
    ensures forall t :: t in r <==> MayStart(g, input, t)
  {
    set t | t in g.tasks && MayStart(g, input, t)
  }

  lemma CpuReadyLists(g: Graph, input: CpuInput)
    requires Ordered(g)
    ensures Lists(CpuReady(g, input), g.order, Startable(g, input))
  {
    PickLists(g, CpuReadySet(g.tasks, input), Startable(g, input));
  }

  /** The CPU scheduler starts a task exactly if one may start; it starts one of those, the
      preferred one, and nothing is raised. */
  lemma CpuStartsIffSomeMay(g: Graph, input: CpuInput, useDeadlines: bool, deterministic: bool, status: SchedulerStatus,
                            raised: bool)
    requires Ordered(g) && CpuUpdated(g, input, useDeadlines, deterministic, status, raised)
    ensures NextTask in status.status <==> exists t :: MayStart(g, input, t)
    ensures status.taskId.Some? <==> NextTask in status.status
    ensures status.taskId.Some? ==>
              && !raised && MayStart(g, input, status.taskId.value)
              && IsPreferred(g, useDeadlines, deterministic, Startable(g, input), status.taskId.value)
  {
    CpuReadyLists(g, input);
    var ready := CpuReady(g, input);
    if t :| MayStart(g, input, t) {
      assert t in ready;
      SomeTaskInOrder(g, t);
    }
    if status.taskId.Some? {
      var t := status.taskId.value;
      assert t in ready && MayStart(g, input, t);
      ChosenIsPreferred(g, ready, Startable(g, input), useDeadlines, deterministic, t);
    }
  }

  /** A receive task whose message is missing. */
  ghost predicate LacksMessage(g: Graph, input: CpuInput, t: int) {
    IsFree(g, t) && g.tasks[t].task.kind.HostEvent? && t !in input.messages
  }

  ghost predicate StartsInFuture(g: Graph, input: CpuInput, t: int) {
    IsFree(g, t) && g.tasks[t].startTime.Some? && g.tasks[t].startTime.value > input.now
  }

  ghost predicate WaitsForOther(g: Graph, t: int) {
    t in g.tasks && g.tasks[t].preds == {} && g.tasks[t].extPreds != {}
  }

  lemma NamesMissingMessages(g: Graph, input: CpuInput, status: SchedulerStatus)
    requires CpuWaits(g, input, status)
    ensures WaitingMsg in status.status <==> exists t :: LacksMessage(g, input, t)
  {
    if t :| LacksMessage(g, input, t) {
      assert CpuCause(g, input, t, WaitingMsg);
    }
    if t :| CpuCause(g, input, t, WaitingMsg) {
      assert LacksMessage(g, input, t);
    }
  }

  lemma NamesStartTimes(g: Graph, input: CpuInput, status: SchedulerStatus)
    requires CpuWaits(g, input, status)
    ensures WaitingStartTime in status.status <==> exists t :: StartsInFuture(g, input, t)
    ensures forall t :: StartsInFuture(g, input, t) ==>
              status.startTime.Some? && status.startTime.value <= g.tasks[t].startTime.value
    ensures status.startTime.Some? ==>
              exists t :: StartsInFuture(g, input, t) && g.tasks[t].startTime == status.startTime
  {
    forall t ensures StartsInFuture(g, input, t) <==> CpuCause(g, input, t, WaitingStartTime) {
    }
  }

  lemma NamesOtherCore(g: Graph, input: CpuInput, status: SchedulerStatus)
    requires CpuWaits(g, input, status)
    ensures WaitingOtherCore in status.status <==> exists t :: WaitsForOther(g, t)
  {
    if t :| WaitsForOther(g, t) {
      assert CpuCause(g, input, t, WaitingOtherCore);
    }
    if t :| CpuCause(g, input, t, WaitingOtherCore) {
      assert WaitsForOther(g, t);
    }
  }

  lemma NothingListed(s: seq<int>, order: seq<int>, ready: set<int>)
    requires Lists(s, order, ready) && forall t :: t !in ready
    ensures s == []
  {
    if s != [] {
      var t := FirstIsIn(s);
      assert false;
    }
  }

  lemma NothingStartable(g: Graph, input: CpuInput)
    requires Ordered(g) && forall t :: !MayStart(g, input, t)
    ensures CpuReady(g, input) == []
  {
    CpuReadyLists(g, input);
    NothingListed(CpuReady(g, input), g.order, Startable(g, input));
  }

  /** When no task may start, the status says that a message is missing, that a start time
      has not come, or that the other core is not done, exactly if that holds of a task. */
  lemma CpuWaitsIff(g: Graph, input: CpuInput, useDeadlines: bool, deterministic: bool, status: SchedulerStatus,
                    raised: bool)
    requires Ordered(g) && CpuUpdated(g, input, useDeadlines, deterministic, status, raised)
    requires g.order != [] && forall t :: !MayStart(g, input, t)
    ensures WaitingMsg in status.status <==> exists t :: LacksMessage(g, input, t)
    ensures WaitingStartTime in status.status <==> exists t :: StartsInFuture(g, input, t)
    ensures WaitingOtherCore in status.status <==> exists t :: WaitsForOther(g, t)
    ensures status.status <= {WaitingMsg, WaitingStartTime, WaitingOtherCore} && status.taskId.None?
    ensures forall t :: StartsInFuture(g, input, t) ==>
              status.startTime.Some? && status.startTime.value <= g.tasks[t].startTime.value
    ensures status.startTime.Some? ==>
              exists t :: StartsInFuture(g, input, t) && g.tasks[t].startTime == status.startTime
  {
    NothingStartable(g, input);
    CpuStatusIsComplete(g, input, useDeadlines, deterministic, status, raised);
    NamesMissingMessages(g, input, status);
    NamesStartTimes(g, input, status);
    NamesOtherCore(g, input, status);
  }

  /** What one call of `update_status` on the CPU comes to. */
  ghost predicate CpuLaw(g: Graph, input: CpuInput, useDeadlines: bool, deterministic: bool, status: SchedulerStatus) {
    if exists t :: MayStart(g, input, t) then
      && status.status == {NextTask} && status.taskId.Some? && MayStart(g, input, status.taskId.value)
      && IsPreferred(g, useDeadlines, deterministic, Startable(g, input), status.taskId.value)
    else
      && status.taskId.None?
      && (WaitingMsg in status.status <==> exists t :: LacksMessage(g, input, t))
      && (WaitingStartTime in status.status <==> exists t :: StartsInFuture(g, input, t))
      && (WaitingOtherCore in status.status <==> exists t :: WaitsForOther(g, t))
  }

  lemma EmptyHasNoTask(g: Graph)
    requires Ordered(g) && g.order == []
    ensures g.tasks.Keys == {}
  {
  }

  lemma CpuObeysLaw(g: Graph, input: CpuInput, useDeadlines: bool, deterministic: bool, status: SchedulerStatus,
                    raised: bool)
    requires Ordered(g) && CpuUpdated(g, input, useDeadlines, deterministic, status, raised)
    ensures CpuLaw(g, input, useDeadlines, deterministic, status)
  {
    CpuStartsIffSomeMay(g, input, useDeadlines, deterministic, status, raised);
    if forall t :: !MayStart(g, input, t) {
      if g.order == [] {
        EmptyHasNoTask(g);
      } else {
        CpuWaitsIff(g, input, useDeadlines, deterministic, status, raised);
      }
    }
  }

  // ----- QPU -----

  /** A task that generates pairs itself. */
  ghost predicate IsPair(g: Graph, t: int) {
    t in g.tasks && (g.tasks[t].task.kind.SinglePair? || g.tasks[t].task.kind.MultiPair?)
  }

  ghost predicate CanRun(g: Graph, input: QpuInput, t: int) {
    IsFree(g, t) && t in input.available
  }

  /** Pairs are generated in their time bin only. */
  ghost predicate MayPair(g: Graph, input: QpuInput, t: int) {
    CanRun(g, input, t) && IsPair(g, t) && TimeUntilBin(input, t) == Some(0)
  }

  ghost predicate HasNoBin(g: Graph, input: QpuInput, t: int) {
    CanRun(g, input, t) && IsPair(g, t) && TimeUntilBin(input, t).None?
  }

  ghost predicate MayRun(g: Graph, input: QpuInput, t: int) {
    CanRun(g, input, t) && !IsPair(g, t)
  }

  ghost function Pairable(g: Graph, input: QpuInput): (r: set<int>)
    ensures forall t :: t in r <==> MayPair(g, input, t)
  {
    set t | t in g.tasks && MayPair(g, input, t)
  }

  ghost function Runnable(g: Graph, input: QpuInput): (r: set<int>)
    ensures forall t :: t in r <==> MayRun(g, input, t)
  {
    set t | t in g.tasks && MayRun(g, input, t)
  }

  lemma PairsAvailable(g: Graph, input: QpuInput, t: int)
    requires Ordered(g)
    ensures t in EprAvailable(g, input) <==> CanRun(g, input, t) && IsPair(g, t)
  {
    FreeIsRoot(g, t);
  }

  lemma UnknownIff(g: Graph, input: QpuInput)
    requires Ordered(g)
    ensures BinUnknown(EprAvailable(g, input), input) <==> exists t :: HasNoBin(g, input, t)
  {
    if t :| HasNoBin(g, input, t) {
      PairsAvailable(g, input, t);
    }
    if t :| t in EprAvailable(g, input) && TimeUntilBin(input, t).None? {
      PairsAvailable(g, input, t);
      assert HasNoBin(g, input, t);
    }
  }

  lemma EprReadyLists(g: Graph, input: QpuInput)
    requires Ordered(g)
    ensures Lists(EprReady(g, input), g.order, Pairable(g, input))
  {
    var available := EprAvailable(g, input);
    var s := EprReady(g, input);
    forall t ensures t in s <==> t in Pairable(g, input) {
      PairsAvailable(g, input, t);
    }
    forall a, b | Before(s, a, b) ensures Before(g.order, a, b) {
      PickKeepsBefore(available, BinNow(available, input), a, b);
      PickKeepsBefore(Roots(g, false), (set t | t in g.tasks && g.tasks[t].task.IsEpr() && t in input.available), a, b);
      PickKeepsBefore(g.order, RootSet(g.tasks, false), a, b);
    }
  }

  lemma NonEprReadyLists(g: Graph, input: QpuInput)
    requires Ordered(g)
    ensures Lists(NonEprReady(g, input), g.order, Runnable(g, input))
  {
    PickLists(g, (set t | t in g.tasks && !g.tasks[t].task.IsEpr() && t in input.available), Runnable(g, input));
  }

  /** If the bin of a pair cannot be computed, the exception leaves the status empty. */
  lemma QpuRaisesWithoutBin(g: Graph, input: QpuInput, useDeadlines: bool, deterministic: bool, status: SchedulerStatus,
                            raised: bool, t: int)
    requires Ordered(g) && QpuUpdated(g, input, useDeadlines, deterministic, status, raised)
    requires HasNoBin(g, input, t)
    ensures raised && status == NoStatus
  {
    SomeTaskInOrder(g, t);
    UnknownIff(g, input);
  }

  /** Pairs come first: the QPU scheduler generates one exactly if some task may, and then
      it takes the first of them, whatever their deadlines. */
  lemma QpuPairsIffSomeMay(g: Graph, input: QpuInput, useDeadlines: bool, deterministic: bool, status: SchedulerStatus,
                           raised: bool)
    requires Ordered(g) && QpuUpdated(g, input, useDeadlines, deterministic, status, raised)
    requires forall t :: !HasNoBin(g, input, t)
    ensures EprGen in status.status <==> exists t :: MayPair(g, input, t)
    ensures EprGen in status.status ==>
              && !raised && status.taskId.Some? && MayPair(g, input, status.taskId.value)
              && forall u :: MayPair(g, input, u) && u != status.taskId.value ==> Before(g.order, status.taskId.value, u)
  {
    UnknownIff(g, input);
    EprReadyLists(g, input);
    var ready := EprReady(g, input);
    if t :| MayPair(g, input, t) {
      assert t in Pairable(g, input) && t in ready;
      SomeTaskInOrder(g, t);
    }
    if EprGen in status.status {
      var t := ready[0];
      assert t in ready && t in Pairable(g, input);
      forall u | MayPair(g, input, u) && u != t ensures Before(g.order, t, u) {
        assert u in Pairable(g, input);
        FirstComesBefore(ready, u);
      }
    }
  }

  lemma NothingPairable(g: Graph, input: QpuInput)
    requires Ordered(g) && forall t :: !MayPair(g, input, t)
    ensures EprReady(g, input) == []
  {
    EprReadyLists(g, input);
    NothingListed(EprReady(g, input), g.order, Pairable(g, input));
  }

  /** Otherwise it starts a task exactly if some task may run; it starts one of those, the
      preferred one. */
  lemma QpuStartsIffSomeMay(g: Graph, input: QpuInput, useDeadlines: bool, deterministic: bool, status: SchedulerStatus,
                            raised: bool)
    requires Ordered(g) && QpuUpdated(g, input, useDeadlines, deterministic, status, raised)
    requires forall t :: !HasNoBin(g, input, t) && !MayPair(g, input, t)
    ensures NextTask in status.status <==> exists t :: MayRun(g, input, t)
    ensures status.taskId.Some? <==> NextTask in status.status
    ensures status.taskId.Some? ==>
              && !raised && MayRun(g, input, status.taskId.value)
              && IsPreferred(g, useDeadlines, deterministic, Runnable(g, input), status.taskId.value)
  {
    UnknownIff(g, input);
    NothingPairable(g, input);
    NonEprReadyLists(g, input);
    var ready := NonEprReady(g, input);
    if t :| MayRun(g, input, t) {
      assert t in Runnable(g, input) && t in ready;
      SomeTaskInOrder(g, t);
    }
    if status.taskId.Some? {
      var t := status.taskId.value;
      assert t in ready && t in Runnable(g, input);
      ChosenIsPreferred(g, ready, Runnable(g, input), useDeadlines, deterministic, t);
    }
  }

  /** Whatever the QPU scheduler picks has its resources, and if it generates pairs, it is
      time for that. */
  lemma QpuTaskIsDue(g: Graph, input: QpuInput, useDeadlines: bool, deterministic: bool, status: SchedulerStatus,
                     raised: bool)
    requires Ordered(g) && QpuUpdated(g, input, useDeadlines, deterministic, status, raised) && status.taskId.Some?
    ensures MayPair(g, input, status.taskId.value) || MayRun(g, input, status.taskId.value)
  {
    EprReadyLists(g, input);
    NonEprReadyLists(g, input);
    var t := status.taskId.value;
    assert t in EprReady(g, input) || t in NonEprReady(g, input);
    assert t in Pairable(g, input) || t in Runnable(g, input);
  }

  ghost predicate LacksResources(g: Graph, input: QpuInput, t: int) {
    IsFree(g, t) && t !in input.available
  }

  ghost predicate BinInFuture(g: Graph, input: QpuInput, t: int) {
    CanRun(g, input, t) && IsPair(g, t) && TimeUntilBin(input, t).Some? && TimeUntilBin(input, t).value > 0
  }

  lemma NamesResources(g: Graph, input: QpuInput, status: SchedulerStatus)
    requires QpuWaits(g, input, status)
    ensures WaitingResources in status.status <==> exists t :: LacksResources(g, input, t)
  {
    if t :| LacksResources(g, input, t) {
      assert QpuCause(g, input, t, WaitingResources);
    }
    if t :| QpuCause(g, input, t, WaitingResources) {
      assert LacksResources(g, input, t);
    }
  }

  lemma NamesTimeBins(g: Graph, input: QpuInput, status: SchedulerStatus)
    requires QpuWaits(g, input, status)
    ensures WaitingTimeBin in status.status <==> exists t :: BinInFuture(g, input, t)
    ensures forall t :: BinInFuture(g, input, t) ==>
              status.delta.Some? && status.delta.value <= TimeUntilBin(input, t).value
    ensures status.delta.Some? ==> exists t :: BinInFuture(g, input, t) && TimeUntilBin(input, t) == status.delta
  {
    forall t ensures BinInFuture(g, input, t) <==> QpuCause(g, input, t, WaitingTimeBin) {
    }
  }

  lemma NamesCpu(g: Graph, input: QpuInput, status: SchedulerStatus)
    requires QpuWaits(g, input, status)
    ensures WaitingOtherCore in status.status <==> exists t :: WaitsForOther(g, t)
  {
    if t :| WaitsForOther(g, t) {
      assert QpuCause(g, input, t, WaitingOtherCore);
    }
    if t :| QpuCause(g, input, t, WaitingOtherCore) {
      assert WaitsForOther(g, t);
    }
  }

  lemma NothingRunnable(g: Graph, input: QpuInput)
    requires Ordered(g) && forall t :: !MayRun(g, input, t)
    ensures NonEprReady(g, input) == []
  {
    NonEprReadyLists(g, input);
    NothingListed(NonEprReady(g, input), g.order, Runnable(g, input));
  }

  /** When no task may generate pairs or run, the status says that resources are missing,
      that a bin has not come, or that the other core is not done, exactly if that holds of
      a task, and gives the least wait for a bin. */
  lemma QpuWaitsIff(g: Graph, input: QpuInput, useDeadlines: bool, deterministic: bool, status: SchedulerStatus,
                    raised: bool)
    requires Ordered(g) && QpuUpdated(g, input, useDeadlines, deterministic, status, raised)
    requires g.order != [] && forall t :: !HasNoBin(g, input, t) && !MayPair(g, input, t) && !MayRun(g, input, t)
    ensures WaitingResources in status.status <==> exists t :: LacksResources(g, input, t)
    ensures WaitingTimeBin in status.status <==> exists t :: BinInFuture(g, input, t)
    ensures WaitingOtherCore in status.status <==> exists t :: WaitsForOther(g, t)
    ensures status.status <= {WaitingResources, WaitingTimeBin, WaitingOtherCore} && status.taskId.None?
    ensures forall t :: BinInFuture(g, input, t) ==>
              status.delta.Some? && status.delta.value <= TimeUntilBin(input, t).value
    ensures status.delta.Some? ==> exists t :: BinInFuture(g, input, t) && TimeUntilBin(input, t) == status.delta
  {
    UnknownIff(g, input);
    NothingPairable(g, input);
    NothingRunnable(g, input);
    QpuStatusIsComplete(g, input, useDeadlines, deterministic, status, raised);
    NamesResources(g, input, status);
    NamesTimeBins(g, input, status);
    NamesCpu(g, input, status);
  }

  /** What one call of `update_status` on the QPU comes to, if the bins are known. */
  ghost predicate QpuLaw(g: Graph, input: QpuInput, useDeadlines: bool, deterministic: bool, status: SchedulerStatus) {
    if exists t :: MayPair(g, input, t) then
      status.status == {EprGen} && status.taskId.Some? && MayPair(g, input, status.taskId.value)
    else if exists t :: MayRun(g, input, t) then
      && status.status == {NextTask} && status.taskId.Some? && MayRun(g, input, status.taskId.value)
      && IsPreferred(g, useDeadlines, deterministic, Runnable(g, input), status.taskId.value)
    else
      && status.taskId.None?
      && (WaitingResources in status.status <==> exists t :: LacksResources(g, input, t))
      && (WaitingTimeBin in status.status <==> exists t :: BinInFuture(g, input, t))
      && (WaitingOtherCore in status.status <==> exists t :: WaitsForOther(g, t))
  }

  lemma QpuObeysLaw(g: Graph, input: QpuInput, useDeadlines: bool, deterministic: bool, status: SchedulerStatus,
                    raised: bool)
    requires Ordered(g) && QpuUpdated(g, input, useDeadlines, deterministic, status, raised)
    requires forall t :: !HasNoBin(g, input, t)
    ensures QpuLaw(g, input, useDeadlines, deterministic, status)
  {
    QpuPairsIffSomeMay(g, input, useDeadlines, deterministic, status, raised);
    if forall t :: !MayPair(g, input, t) {
      QpuStartsIffSomeMay(g, input, useDeadlines, deterministic, status, raised);
      if forall t :: !MayRun(g, input, t) {
        if g.order == [] {
          EmptyHasNoTask(g);
        } else {
          QpuWaitsIff(g, input, useDeadlines, deterministic, status, raised);
        }
      }
    }
  }

  // ----- the calendar -----

  /** Without a network schedule no pair waits. With one that starts at zero, the wait is
      the least time until the bin comes up in the calendar, so it is zero exactly when the
      bin starts now. */
  lemma WaitIsUntilBin(input: QpuInput, t: int)
    ensures input.schedule.None? ==> TimeUntilBin(input, t) == Some(0)
    ensures input.schedule.Some? && input.schedule.value.Fits() && input.schedule.value.firstBin == 0 &&
            t in input.bins && Once(input.schedule.value.pattern, input.bins[t]) ==>
              && IsLeastWait(input.schedule.value, input.now, input.bins[t], TimeUntilBin(input, t))
              && (TimeUntilBin(input, t) == Some(0) <==> BinAt(input.schedule.value, input.now) == Some(input.bins[t]))
  {
    if input.schedule.Some? && input.schedule.value.Fits() && input.schedule.value.firstBin == 0 &&
       t in input.bins && Once(input.schedule.value.pattern, input.bins[t])
    {
      NextSpecificBinIsLeast(input.schedule.value, input.now, input.bins[t]);
      var wait := TimeUntilBin(input, t).value;
      if wait != 0 {
        assert BinAt(input.schedule.value, input.now) != Some(input.bins[t]);
      } else {
        assert BinAt(input.schedule.value, input.now + 0) == Some(input.bins[t]);
      }
    }
  }
}
