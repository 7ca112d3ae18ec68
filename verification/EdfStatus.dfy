/** How a core decides what to do next (qoala/sim/scheduler.py:736-751, 869-959, 1114-1236). */
module EdfStatus {
  import opened Tasks
  import opened Reachability
  import opened GraphOps
  import opened NetworkSchedule

  datatype Status =
    | GraphEmpty | EprGen | NextTask | WaitingOtherCore | WaitingMsg | WaitingStartTime
    | WaitingResources | WaitingTimeBin

  datatype SchedulerStatus = SchedulerStatus(
    status: set<Status>, taskId: Option<int>, startTime: Option<int>, delta: Option<int>)

  const NoStatus := SchedulerStatus({}, None, None, None)

  /** The first of the ids with the least key: `sorted(...)[0]`, which is stable. */
  function FirstMin(ids: seq<int>, key: map<int, int>): (r: int)
    requires ids != [] && forall x :: x in ids ==> x in key
    ensures r in ids && forall x :: x in ids ==> key[r] <= key[x]
  {
    if |ids| == 1 then ids[0]
    else
      var rest := FirstMin(ids[1..], key);
      var first := ids[0];
      assert first in ids;
      if key[first] <= key[rest] then first else rest
  }

  lemma {:induction false} SameKeysSameMin(ids: seq<int>, key: map<int, int>, other: map<int, int>)
    requires ids != [] && forall x :: x in ids ==> x in key && x in other && key[x] == other[x]
    ensures FirstMin(ids, key) == FirstMin(ids, other)
  {
    if |ids| > 1 {
      SameKeysSameMin(ids[1..], key, other);
      assert ids[0] in ids;
    }
  }

  ghost predicate Before(s: seq<int>, a: int, b: int) {
    exists i, j :: 0 <= i < j < |s| && s[i] == a && s[j] == b
  }

  lemma BeforeTail(s: seq<int>, a: int, b: int)
    requires s != [] && (Before(s[1..], a, b) || (s[0] == a && b in s[1..]))
    ensures Before(s, a, b)
  {
    if Before(s[1..], a, b) {
      var i, j :| 0 <= i < j < |s[1..]| && s[1..][i] == a && s[1..][j] == b;
      assert s[i + 1] == a && s[j + 1] == b;
    } else {
      var j :| 0 <= j < |s[1..]| && s[1..][j] == b;
      assert s[0] == a && s[j + 1] == b;
    }
  }

  /** Among equal keys the first in the sequence wins. */
  lemma {:induction false} FirstMinIsFirst(ids: seq<int>, key: map<int, int>, x: int)
    requires ids != [] && (forall y :: y in ids ==> y in key) && x in ids
    ensures key[x] == key[FirstMin(ids, key)] ==> x == FirstMin(ids, key) || Before(ids, FirstMin(ids, key), x)
  {
    var r := FirstMin(ids, key);
    if |ids| > 1 && key[x] == key[r] && x != r {
      if r == ids[0] {
        assert x in ids[1..];
        BeforeTail(ids, r, x);
      } else {
        assert ids[0] != x by {
          assert key[ids[0]] > key[FirstMin(ids[1..], key)];
        }
        FirstMinIsFirst(ids[1..], key, x);
        BeforeTail(ids, r, x);
      }
    }
  }

  lemma {:induction false} PickKeepsBefore(s: seq<int>, keep: set<int>, a: int, b: int)
    requires Before(Pick(s, keep), a, b)
    ensures Before(s, a, b)
  {
    if s != [] {
      var p := Pick(s, keep);
      var rest := Pick(s[1..], keep);
      var i, j :| 0 <= i < j < |p| && p[i] == a && p[j] == b;
      if s[0] !in keep {
        PickKeepsBefore(s[1..], keep, a, b);
      } else if i > 0 {
        assert rest[i - 1] == a && rest[j - 1] == b;
        PickKeepsBefore(s[1..], keep, a, b);
      } else {
        assert rest[j - 1] == b && b in rest;
      }
      BeforeTail(s, a, b);
    }
  }

  // ----- choosing among ready tasks -----

  function WithDeadline(m: TaskMap): set<int> {
    set t | t in m && m[t].deadline.Some?
  }

  function DeadlineOf(m: TaskMap): map<int, int> {
    map t | t in WithDeadline(m) :: m[t].deadline.value
  }

  /** The earliest deadline; without deadlines the first ready task, or any of them if the
      scheduler is not deterministic. */
  predicate Chosen(m: TaskMap, ready: seq<int>, useDeadlines: bool, deterministic: bool, t: int) {
    var withDeadline := if useDeadlines then Pick(ready, WithDeadline(m)) else [];
    && t in ready
    && (withDeadline != [] ==> t == FirstMin(withDeadline, DeadlineOf(m)))
    && (withDeadline == [] && deterministic ==> t == ready[0])
  }

  // ----- CPU -----

  /** What the CPU scheduler reads from its surroundings. */
  datatype CpuInput = CpuInput(now: int, messages: set<int>)

  predicate BlockedOnMessage(m: TaskMap, input: CpuInput, t: int)
    requires t in m
  {
    m[t].task.IsEvent() && t !in input.messages
  }

  predicate StartsLater(m: TaskMap, input: CpuInput, t: int)
    requires t in m
  {
    m[t].startTime.Some? && m[t].startTime.value > input.now
  }

  function CpuReadySet(m: TaskMap, input: CpuInput): set<int> {
    set t | t in m && !BlockedOnMessage(m, input, t) && !StartsLater(m, input, t)
  }

  function CpuReady(g: Graph, input: CpuInput): seq<int> {
    Pick(Roots(g, false), CpuReadySet(g.tasks, input))
  }

  /** What blocks a task that has no predecessor on its own core. */
  predicate CpuCause(g: Graph, input: CpuInput, t: int, cause: Status) {
    && t in g.tasks && g.tasks[t].preds == {}
    && match cause
       case WaitingOtherCore => g.tasks[t].extPreds != {}
       case WaitingMsg => g.tasks[t].extPreds == {} && BlockedOnMessage(g.tasks, input, t)
       case WaitingStartTime => g.tasks[t].extPreds == {} && StartsLater(g.tasks, input, t)
       case _ => false
  }

  /** The status names exactly the causes there are, and the least future start time. */
  ghost predicate CpuWaits(g: Graph, input: CpuInput, status: SchedulerStatus) {
    && (forall c :: c in status.status <==> exists t :: CpuCause(g, input, t, c))
    && (forall t :: CpuCause(g, input, t, WaitingStartTime) ==>
          status.startTime.Some? && status.startTime.value <= g.tasks[t].startTime.value)
    && (status.startTime.Some? ==>
          exists t :: CpuCause(g, input, t, WaitingStartTime) && g.tasks[t].startTime == status.startTime)
  }

  function CpuBlockedOnMessage(g: Graph, input: CpuInput): seq<int> {
    Pick(Roots(g, false), set t | t in g.tasks && BlockedOnMessage(g.tasks, input, t))
  }

  function CpuStartsLater(g: Graph, input: CpuInput): (r: seq<int>)
    ensures forall t :: t in r ==> t in StartOf(g.tasks)
  {
    Pick(Roots(g, false), set t | t in g.tasks && StartsLater(g.tasks, input, t))
  }

  function StartOf(m: TaskMap): map<int, int> {
    map t | t in m && m[t].startTime.Some? :: m[t].startTime.value
  }

  /** The causes that apply: another core, and two that only one kind of core has. */
  function Causes(external: bool, first: Status, hasFirst: bool, second: Status, hasSecond: bool): (r: set<Status>)
    ensures forall c :: c in r <==>
      (c == WaitingOtherCore && external) || (c == first && hasFirst) || (c == second && hasSecond)
  {
    (if external then {WaitingOtherCore} else {}) + (if hasFirst then {first} else {}) + (if hasSecond then {second} else {})
  }

  /** The status when no task is ready. */
  function CpuWaiting(g: Graph, input: CpuInput): SchedulerStatus {
    var later := CpuStartsLater(g, input);
    SchedulerStatus(
      Causes(BlockedOnExternal(g) != [], WaitingMsg, CpuBlockedOnMessage(g, input) != [], WaitingStartTime, later != []),
      None,
      if later != [] then g.tasks[FirstMin(later, StartOf(g.tasks))].startTime else None,
      None)
  }

  /** What one call of `update_status` leaves behind. */
  ghost predicate CpuUpdated(g: Graph, input: CpuInput, useDeadlines: bool, deterministic: bool,
                             status: SchedulerStatus, raised: bool)
  {
    if g.order == [] then !raised && status == NoStatus.(status := {GraphEmpty})
    else if CpuReady(g, input) == [] then status == CpuWaiting(g, input) && raised == (status.status == {})
    else
      && !raised && status.taskId.Some? && status == NoStatus.(status := {NextTask}, taskId := status.taskId)
      && Chosen(g.tasks, CpuReady(g, input), useDeadlines, deterministic, status.taskId.value)
  }

  /** The list of tasks whose being non-empty puts `c` into the status. */
  function Blamed(g: Graph, input: CpuInput, c: Status): seq<int> {
    match c
    case WaitingOtherCore => BlockedOnExternal(g)
    case WaitingMsg => CpuBlockedOnMessage(g, input)
    case WaitingStartTime => CpuStartsLater(g, input)
    case _ => []
  }

  /** Membership in one of the filtered lists of tasks. */
  lemma RootCauses(g: Graph, input: CpuInput, t: int, c: Status)
    requires Ordered(g)
    ensures t in Blamed(g, input, c) <==> CpuCause(g, input, t, c)
  {
    assert t in g.tasks ==> t in Elements(g.order);
  }

  lemma BlamedIsNamed(g: Graph, input: CpuInput, c: Status)
    ensures c in CpuWaiting(g, input).status <==> Blamed(g, input, c) != []
  {
  }

  lemma FirstIsIn(s: seq<int>) returns (t: int)
    requires s != []
    ensures t in s
  {
    t := s[0];
  }

  lemma CpuWaitingNamesCauses(g: Graph, input: CpuInput, c: Status)
    requires Ordered(g)
    ensures c in CpuWaiting(g, input).status <==> exists t :: CpuCause(g, input, t, c)
  {
    BlamedIsNamed(g, input, c);
    forall t | CpuCause(g, input, t, c) ensures t in Blamed(g, input, c) {
      RootCauses(g, input, t, c);
    }
    if Blamed(g, input, c) != [] {
      var t := FirstIsIn(Blamed(g, input, c));
      RootCauses(g, input, t, c);
    }
  }

  /** When nothing is ready, the status holds the cause of every task that waits for
      something else than a predecessor on its own core, and the least start time. */
  lemma CpuStatusIsComplete(g: Graph, input: CpuInput, useDeadlines: bool, deterministic: bool,
                            status: SchedulerStatus, raised: bool)
    requires Ordered(g) && g.order != [] && CpuReady(g, input) == []
    requires CpuUpdated(g, input, useDeadlines, deterministic, status, raised)
    ensures CpuWaits(g, input, status)
  {
    forall c ensures c in status.status <==> exists t :: CpuCause(g, input, t, c) {
      CpuWaitingNamesCauses(g, input, c);
    }
    var later := CpuStartsLater(g, input);
    forall t | CpuCause(g, input, t, WaitingStartTime)
      ensures status.startTime.Some? && status.startTime.value <= g.tasks[t].startTime.value
    {
      RootCauses(g, input, t, WaitingStartTime);
      assert t in later;
    }
    if later != [] {
      var t := FirstMin(later, StartOf(g.tasks));
      RootCauses(g, input, t, WaitingStartTime);
    }
  }

  lemma SomeRoot(g: Graph) returns (t: int)
    requires Ordered(g) && Closed(g.tasks) && Acyclic(g.tasks) && g.order != []
    ensures t in g.tasks && g.tasks[t].preds == {}
  {
    var x := g.order[0];
    assert x in Elements(g.order);
    t := MinimalMember(g.tasks, g.tasks.Keys, x);
    assert forall p :: p in g.tasks[t].preds ==> p in g.tasks.Keys;
    if g.tasks[t].preds != {} {
      NonEmptyHas(g.tasks[t].preds);
    }
  }

  /** On a non-empty acyclic graph without ready tasks there is a cause to wait for. */
  lemma CpuHasCause(g: Graph, input: CpuInput) returns (t: int, cause: Status)
    requires Ordered(g) && Closed(g.tasks) && Acyclic(g.tasks) && g.order != []
    requires CpuReady(g, input) == []
    ensures CpuCause(g, input, t, cause)
  {
    t := SomeRoot(g);
    assert t in Elements(g.order);
    if g.tasks[t].extPreds != {} {
      cause := WaitingOtherCore;
    } else {
      assert t in Roots(g, false);
      assert t !in CpuReady(g, input);
      cause := if BlockedOnMessage(g.tasks, input, t) then WaitingMsg else WaitingStartTime;
    }
  }

  /** On an acyclic graph `update_status` never reaches its RuntimeError. */
  lemma CpuNeverRaises(g: Graph, input: CpuInput, useDeadlines: bool, deterministic: bool,
                       status: SchedulerStatus, raised: bool)
    requires Ordered(g) && Closed(g.tasks) && Acyclic(g.tasks)
    requires CpuUpdated(g, input, useDeadlines, deterministic, status, raised)
    ensures !raised
  {
    if g.order != [] && CpuReady(g, input) == [] {
      var t, cause := CpuHasCause(g, input);
      CpuWaitingNamesCauses(g, input, cause);
      assert cause in status.status;
    }
  }

  // ----- QPU -----

  /** `available` are the tasks for which the resource probe succeeds; `bins` gives the
      time bin of each entanglement task. */
  datatype QpuInput = QpuInput(now: int, available: set<int>, schedule: Option<Schedule>, bins: map<int, Timebin>)

  /** The wait for the bin of an entanglement task; None models the exceptions of
      `next_specific_bin`. */
  function TimeUntilBin(input: QpuInput, t: int): Option<int> {
    if input.schedule.None? then Some(0)
    else if !input.schedule.value.Divisible() || t !in input.bins then None
    else NextSpecificBin(input.schedule.value, input.now, input.bins[t])
  }

  function BinNow(ids: seq<int>, input: QpuInput): set<int> {
    set t | t in ids && TimeUntilBin(input, t) == Some(0)
  }

  function Deltas(ids: seq<int>, input: QpuInput): map<int, int> {
    map t | t in ids && TimeUntilBin(input, t).Some? :: TimeUntilBin(input, t).value
  }

  function BinLater(ids: seq<int>, input: QpuInput): set<int> {
    set t | t in Deltas(ids, input) && Deltas(ids, input)[t] > 0
  }

  predicate BinUnknown(ids: seq<int>, input: QpuInput) {
    exists t :: t in ids && TimeUntilBin(input, t).None?
  }

  function EprAvailable(g: Graph, input: QpuInput): seq<int> {
    Pick(Roots(g, false), set t | t in g.tasks && g.tasks[t].task.IsEpr() && t in input.available)
  }

  function NonEprReady(g: Graph, input: QpuInput): seq<int> {
    Pick(Roots(g, false), set t | t in g.tasks && !g.tasks[t].task.IsEpr() && t in input.available)
  }

  function BlockedOnResources(g: Graph, input: QpuInput): seq<int> {
    Pick(Roots(g, false), set t | t in g.tasks && t !in input.available)
  }

  function EprReady(g: Graph, input: QpuInput): seq<int> {
    Pick(EprAvailable(g, input), BinNow(EprAvailable(g, input), input))
  }

  function EprLater(g: Graph, input: QpuInput): (r: seq<int>)
    ensures forall t :: t in r ==> t in Deltas(EprAvailable(g, input), input)
  {
    Pick(EprAvailable(g, input), BinLater(EprAvailable(g, input), input))
  }

  function QpuWaiting(g: Graph, input: QpuInput): SchedulerStatus {
    var later := EprLater(g, input);
    SchedulerStatus(
      Causes(BlockedOnExternal(g) != [], WaitingResources, BlockedOnResources(g, input) != [], WaitingTimeBin, later != []),
      None,
      None,
      if later != [] then TimeUntilBin(input, FirstMin(later, Deltas(EprAvailable(g, input), input))) else None)
  }

  ghost predicate QpuUpdated(g: Graph, input: QpuInput, useDeadlines: bool, deterministic: bool,
                             status: SchedulerStatus, raised: bool)
  {
    if g.order == [] then !raised && status == NoStatus.(status := {GraphEmpty})
    else if BinUnknown(EprAvailable(g, input), input) then raised && status == NoStatus
    else if EprReady(g, input) != [] then
      !raised && status == NoStatus.(status := {EprGen}, taskId := Some(EprReady(g, input)[0]))
    else if NonEprReady(g, input) == [] then status == QpuWaiting(g, input) && raised == (status.status == {})
    else
      && !raised && status.taskId.Some? && status == NoStatus.(status := {NextTask}, taskId := status.taskId)
      && Chosen(g.tasks, NonEprReady(g, input), useDeadlines, deterministic, status.taskId.value)
  }

  predicate QpuCause(g: Graph, input: QpuInput, t: int, cause: Status) {
    && t in g.tasks && g.tasks[t].preds == {}
    && match cause
       case WaitingOtherCore => g.tasks[t].extPreds != {}
       case WaitingResources => g.tasks[t].extPreds == {} && t !in input.available
       case WaitingTimeBin =>
         && g.tasks[t].extPreds == {} && t in input.available && g.tasks[t].task.IsEpr()
         && TimeUntilBin(input, t).Some? && TimeUntilBin(input, t).value > 0
       case _ => false
  }

  ghost predicate QpuWaits(g: Graph, input: QpuInput, status: SchedulerStatus) {
    && (forall c :: c in status.status <==> exists t :: QpuCause(g, input, t, c))
    && (forall t :: QpuCause(g, input, t, WaitingTimeBin) ==>
          status.delta.Some? && status.delta.value <= TimeUntilBin(input, t).value)
    && (status.delta.Some? ==>
          exists t :: QpuCause(g, input, t, WaitingTimeBin) && TimeUntilBin(input, t) == status.delta)
  }

  function QpuBlamed(g: Graph, input: QpuInput, c: Status): seq<int> {
    match c
    case WaitingOtherCore => BlockedOnExternal(g)
    case WaitingResources => BlockedOnResources(g, input)
    case WaitingTimeBin => EprLater(g, input)
    case _ => []
  }

  lemma QpuRootCauses(g: Graph, input: QpuInput, t: int, c: Status)
    requires Ordered(g)
    ensures t in QpuBlamed(g, input, c) <==> QpuCause(g, input, t, c)
  {
    assert t in g.tasks ==> t in Elements(g.order);
  }

  lemma QpuBlamedIsNamed(g: Graph, input: QpuInput, c: Status)
    ensures c in QpuWaiting(g, input).status <==> QpuBlamed(g, input, c) != []
  {
  }

  lemma QpuWaitingNamesCauses(g: Graph, input: QpuInput, c: Status)
    requires Ordered(g)
    ensures c in QpuWaiting(g, input).status <==> exists t :: QpuCause(g, input, t, c)
  {
    QpuBlamedIsNamed(g, input, c);
    forall t | QpuCause(g, input, t, c) ensures t in QpuBlamed(g, input, c) {
      QpuRootCauses(g, input, t, c);
    }
    if QpuBlamed(g, input, c) != [] {
      var t := FirstIsIn(QpuBlamed(g, input, c));
      QpuRootCauses(g, input, t, c);
    }
  }

  /** When nothing is ready, the status holds every cause, and the least wait for a bin. */
  lemma QpuStatusIsComplete(g: Graph, input: QpuInput, useDeadlines: bool, deterministic: bool,
                            status: SchedulerStatus, raised: bool)
    requires Ordered(g) && g.order != [] && !BinUnknown(EprAvailable(g, input), input)
    requires EprReady(g, input) == [] && NonEprReady(g, input) == []
    requires QpuUpdated(g, input, useDeadlines, deterministic, status, raised)
    ensures QpuWaits(g, input, status)
  {
    forall c ensures c in status.status <==> exists t :: QpuCause(g, input, t, c) {
      QpuWaitingNamesCauses(g, input, c);
    }
    var later := EprLater(g, input);
    forall t | QpuCause(g, input, t, WaitingTimeBin)
      ensures status.delta.Some? && status.delta.value <= TimeUntilBin(input, t).value
    {
      QpuRootCauses(g, input, t, WaitingTimeBin);
      assert t in later;
    }
    if later != [] {
      var t := FirstMin(later, Deltas(EprAvailable(g, input), input));
      QpuRootCauses(g, input, t, WaitingTimeBin);
    }
  }

  /** Every entanglement task that gets as far as asking for its bin has one, and the wait
      is not negative. */
  ghost predicate NeverNegative(g: Graph, input: QpuInput) {
    forall t :: t in EprAvailable(g, input) ==> TimeUntilBin(input, t).Some? && TimeUntilBin(input, t).value >= 0
  }

  lemma EprRootWaits(g: Graph, input: QpuInput, t: int)
    requires NeverNegative(g, input) && t in EprAvailable(g, input) && t !in EprReady(g, input)
    ensures TimeUntilBin(input, t).Some? && TimeUntilBin(input, t).value > 0
  {
    assert t !in BinNow(EprAvailable(g, input), input);
  }

  lemma QpuHasCause(g: Graph, input: QpuInput) returns (t: int, cause: Status)
    requires Ordered(g) && Closed(g.tasks) && Acyclic(g.tasks) && g.order != []
    requires NeverNegative(g, input) && EprReady(g, input) == [] && NonEprReady(g, input) == []
    ensures QpuCause(g, input, t, cause)
  {
    t := SomeRoot(g);
    assert t in Elements(g.order);
    if g.tasks[t].extPreds != {} {
      cause := WaitingOtherCore;
    } else {
      assert t in Roots(g, false);
      assert t !in NonEprReady(g, input);
      if t in input.available {
        assert t in EprAvailable(g, input);
        EprRootWaits(g, input, t);
      }
      cause := if t in input.available then WaitingTimeBin else WaitingResources;
    }
  }

  /** On an acyclic graph the QPU scheduler does not raise either, if no wait is negative. */
  lemma QpuNeverRaises(g: Graph, input: QpuInput, useDeadlines: bool, deterministic: bool,
                       status: SchedulerStatus, raised: bool)
    requires Ordered(g) && Closed(g.tasks) && Acyclic(g.tasks) && NeverNegative(g, input)
    requires QpuUpdated(g, input, useDeadlines, deterministic, status, raised)
    ensures !raised
  {
    if g.order != [] && EprReady(g, input) == [] && NonEprReady(g, input) == [] {
      var t, cause := QpuHasCause(g, input);
      QpuWaitingNamesCauses(g, input, cause);
      assert cause in status.status;
    }
  }

  /** The first bin lies at most so far in the past that the bin's slot is not over before
      time zero. */
  predicate StartsLateEnough(s: Schedule, bin: Timebin)
    requires bin in s.pattern
  {
    s.firstBin + LastIndex(s.pattern, bin).value * s.binLength + 1 >= 0
  }

  /** If there is a schedule, it starts late enough for the bins of the tasks. */
  ghost predicate BinsAreLate(g: Graph, input: QpuInput) {
    input.schedule.Some? ==>
      && input.schedule.value.Fits()
      && forall t :: t in EprAvailable(g, input) ==>
           && t in input.bins && input.bins[t] in input.schedule.value.pattern
           && StartsLateEnough(input.schedule.value, input.bins[t])
  }

  /** With a schedule that starts late enough for the bins of the tasks, no wait is negative. */
  lemma NoWaitIsNegative(g: Graph, input: QpuInput)
    requires BinsAreLate(g, input)
    ensures NeverNegative(g, input)
  {
    forall t | t in EprAvailable(g, input)
      ensures TimeUntilBin(input, t).Some? && TimeUntilBin(input, t).value >= 0
    {
      if input.schedule.Some? {
        NonNegativeIffFirstBin(input.schedule.value, input.bins[t]);
      }
    }
  }

  // One entanglement task without predecessors, for which the resources are there.

  const PairTask := Task(0, 0, MultiPair(0), None)

  const OnePair := Graph([0], map[0 := OnlyTask(PairTask)])

  function OnePairInput(s: Schedule, bin: Timebin, now: int): QpuInput {
    QpuInput(now, {0}, Some(s), map[0 := bin])
  }

  lemma OnePairIsLawful()
    ensures Ordered(OnePair) && Closed(OnePair.tasks) && Acyclic(OnePair.tasks)
  {
    if Ancestor(OnePair.tasks, 0, 0) {
      AncestorHasEdge(OnePair.tasks, 0, 0);
    }
  }

  lemma AncestorHasEdge(m: TaskMap, a: int, b: int)
    requires Ancestor(m, a, b)
    ensures exists x, y :: Edge(m, x, y)
  {
    var p :| PathFromTo(m, p, a, b) && |p| >= 2;
    assert Edge(m, p[0], p[1]);
  }

  lemma OnePairLists(input: QpuInput)
    requires input.available == {0}
    ensures EprAvailable(OnePair, input) == [0] && NonEprReady(OnePair, input) == []
    ensures BlockedOnResources(OnePair, input) == [] && BlockedOnExternal(OnePair) == []
  {
    assert [0][1..] == [];
  }

  /** A wait that is negative, or cannot be computed, makes the scheduler raise. */
  lemma NegativeWaitRaises(s: Schedule, bin: Timebin, now: int, useDeadlines: bool, deterministic: bool,
                           status: SchedulerStatus, raised: bool)
    requires var input := OnePairInput(s, bin, now);
             TimeUntilBin(input, 0).None? || TimeUntilBin(input, 0).value < 0
    requires QpuUpdated(OnePair, OnePairInput(s, bin, now), useDeadlines, deterministic, status, raised)
    ensures raised
  {
    var input := OnePairInput(s, bin, now);
    OnePairLists(input);
    assert 0 in EprAvailable(OnePair, input);
    if TimeUntilBin(input, 0).Some? {
      assert EprReady(OnePair, input) == [] && EprLater(OnePair, input) == [];
    }
  }

  ghost predicate WaitsForPair(s: Schedule, bin: Timebin, now: int, status: SchedulerStatus, raised: bool) {
    QpuUpdated(OnePair, OnePairInput(s, bin, now), true, true, status, raised)
  }

  lemma NegativeWaitHasOutcome(s: Schedule, bin: Timebin, now: int) returns (status: SchedulerStatus)
    requires var input := OnePairInput(s, bin, now);
             TimeUntilBin(input, 0).None? || TimeUntilBin(input, 0).value < 0
    ensures WaitsForPair(s, bin, now, status, true)
  {
    var input := OnePairInput(s, bin, now);
    OnePairLists(input);
    assert 0 in EprAvailable(OnePair, input);
    if TimeUntilBin(input, 0).None? {
      status := NoStatus;
    } else {
      assert EprReady(OnePair, input) == [] && EprLater(OnePair, input) == [];
      status := QpuWaiting(OnePair, input);
    }
  }

  ghost predicate RaisesAt(s: Schedule, bin: Timebin, now: int) {
    forall useDeadlines, deterministic, status, raised ::
      QpuUpdated(OnePair, OnePairInput(s, bin, now), useDeadlines, deterministic, status, raised) ==> raised
  }

  /** If the schedule starts too early for a bin, there is a time at which the scheduler
      finds neither a ready task nor a reason to wait, and raises. */
  lemma EarlyScheduleRaises(s: Schedule, bin: Timebin) returns (now: int)
    requires s.Fits() && bin in s.pattern && !StartsLateEnough(s, bin)
    ensures Ordered(OnePair) && Closed(OnePair.tasks) && Acyclic(OnePair.tasks) && RaisesAt(s, bin, now)
    ensures exists status :: WaitsForPair(s, bin, now, status, true)
  {
    OnePairIsLawful();
    NonNegativeIffFirstBin(s, bin);
    now :| !(NextSpecificBin(s, now, bin).Some? && NextSpecificBin(s, now, bin).value >= 0);
    var status := NegativeWaitHasOutcome(s, bin, now);
    forall useDeadlines, deterministic, status, raised |
      QpuUpdated(OnePair, OnePairInput(s, bin, now), useDeadlines, deterministic, status, raised)
      ensures raised
    {
      NegativeWaitRaises(s, bin, now, useDeadlines, deterministic, status, raised);
    }
  }

  /** On every acyclic graph, at every time: the QPU scheduler does not raise, if the
      schedule starts late enough for the bins. */
  lemma LateScheduleNeverRaises(g: Graph, input: QpuInput, useDeadlines: bool, deterministic: bool,
                                status: SchedulerStatus, raised: bool)
    requires Ordered(g) && Closed(g.tasks) && Acyclic(g.tasks)
    requires BinsAreLate(g, input)
    requires QpuUpdated(g, input, useDeadlines, deterministic, status, raised)
    ensures !raised
  {
    NoWaitIsNegative(g, input);
    QpuNeverRaises(g, input, useDeadlines, deterministic, status, raised);
  }

  /** So for a bin of a schedule, waiting for a pair in it never fails exactly if the
      schedule starts late enough. */
  lemma WaitingNeverFailsIffLateEnough(s: Schedule, bin: Timebin)
    requires s.Fits() && bin in s.pattern
    ensures (forall now, status, raised :: WaitsForPair(s, bin, now, status, raised) ==> !raised) <==> StartsLateEnough(s, bin)
  {
    if StartsLateEnough(s, bin) {
      OnePairIsLawful();
      forall now, status, raised | WaitsForPair(s, bin, now, status, raised) ensures !raised {
        OnePairLists(OnePairInput(s, bin, now));
        LateScheduleNeverRaises(OnePair, OnePairInput(s, bin, now), true, true, status, raised);
      }
    } else {
      var now := EarlyScheduleRaises(s, bin);
    }
  }
}
