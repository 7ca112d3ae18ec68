/** The graph of each kind of block, task by task (qoala/runtime/task.py:761-940). */
module BlockTheorems {
  import opened Tasks
  import opened GraphOps
  import opened Programs

  /** Task `t` is there, has the kind and duration, waits for `preds` and nothing else. */
  ghost predicate IsTask(m: TaskMap, pid: int, t: int, kind: TaskKind, duration: Option<int>, preds: set<int>) {
    t in m && m[t] == TaskInfo(Task(t, pid, kind, duration), preds, {}, {}, None, map[], map[], None)
  }

  /** A time that is known if the latencies of the node are. */
  ghost function IfKnown(tm: Timing, time: int): Option<int> {
    if tm.ehi.Some? then Some(time) else None
  }

  ghost function Latency(tm: Timing): Latencies {
    if tm.ehi.Some? then tm.ehi.value else Latencies(0, 0, 0)
  }

  lemma TaskOfBlock(b: Block, pid: int, tm: Timing, first: int, t: int, kind: TaskKind, duration: Option<int>,
                    preds: set<int>)
    requires t in Ids(b, first) && TaskAt(b, pid, tm, first, t) == Task(t, pid, kind, duration)
    requires PredsAt(b, first, t) == preds
    ensures IsTask(BlockGraph(b, pid, tm, first).tasks, pid, t, kind, duration, preds)
  {
  }

  /** A classical block is one host task, as long as its instructions. */
  lemma ClassicalBlock(b: Block, pid: int, tm: Timing, first: int)
    requires b.kind.CL?
    ensures var m, time := BlockGraph(b, pid, tm, first).tasks, Latency(tm).hostInstr * b.kind.instructions;
            m.Keys == {first} && IsTask(m, pid, first, HostLocal(b.name), IfKnown(tm, time), {})
  {
    TaskOfBlock(b, pid, tm, first, first, HostLocal(b.name), IfKnown(tm, Latency(tm).hostInstr * b.kind.instructions), {});
  }

  /** A receive block is one receive task, as long as a message takes. */
  lemma ReceiveBlock(b: Block, pid: int, tm: Timing, first: int)
    requires b.kind.CC?
    ensures var m := BlockGraph(b, pid, tm, first).tasks;
            m.Keys == {first} && IsTask(m, pid, first, HostEvent(b.name), IfKnown(tm, Latency(tm).hostPeer), {})
  {
    TaskOfBlock(b, pid, tm, first, first, HostEvent(b.name), IfKnown(tm, Latency(tm).hostPeer), {});
  }

  /** The call and the return of a block, which belong to the host. */
  ghost predicate IsCall(m: TaskMap, b: Block, pid: int, tm: Timing, first: int, exit: int, last: set<int>) {
    && IsTask(m, pid, first, PreCall(b.name, first), IfKnown(tm, Latency(tm).hostInstr), {})
    && IsTask(m, pid, exit, PostCall(b.name, first), IfKnown(tm, Latency(tm).hostInstr), last)
  }

  /** A subroutine call is a chain: call, routine, return. All share the pointer `first`. */
  ghost predicate IsRoutineGraph(m: TaskMap, b: Block, pid: int, tm: Timing, first: int)
    requires b.kind.QL?
  {
    && m.Keys == {first, first + 1, first + 2}
    && IsCall(m, b, pid, tm, first, first + 2, {first + 1})
    && IsTask(m, pid, first + 1, LocalRoutine(b.name, first), IfKnown(tm, b.kind.routineTime), {first})
  }

  lemma RoutineBlock(b: Block, pid: int, tm: Timing, first: int)
    requires b.kind.QL?
    ensures IsRoutineGraph(BlockGraph(b, pid, tm, first).tasks, b, pid, tm, first)
  {
    var host := IfKnown(tm, Latency(tm).hostInstr);
    TaskOfBlock(b, pid, tm, first, first, PreCall(b.name, first), host, {});
    TaskOfBlock(b, pid, tm, first, first + 1, LocalRoutine(b.name, first), IfKnown(tm, b.kind.routineTime), {first});
    TaskOfBlock(b, pid, tm, first, first + 2, PostCall(b.name, first), host, {first + 1});
  }

  ghost function PairTime(tm: Timing, pairs: int): Option<int> {
    if tm.pairDuration.Some? then Some(tm.pairDuration.value * pairs) else None
  }

  lemma CallOfBlock(b: Block, pid: int, tm: Timing, first: int, last: set<int>)
    requires b.kind.QC? && PredsAt(b, first, first + 1) == last
    ensures IsCall(BlockGraph(b, pid, tm, first).tasks, b, pid, tm, first, first + 1, last)
  {
    var host := IfKnown(tm, Latency(tm).hostInstr);
    TaskOfBlock(b, pid, tm, first, first, PreCall(b.name, first), host, {});
    TaskOfBlock(b, pid, tm, first, first + 1, PostCall(b.name, first), host, last);
  }

  lemma WaitAllPairs(b: Block, pid: int, tm: Timing, first: int)
    requires b.kind.QC? && b.kind.waitAll
    ensures IsTask(BlockGraph(b, pid, tm, first).tasks, pid, first + 2, MultiPair(first), PairTime(tm, b.kind.numPairs), {first})
  {
    TaskOfBlock(b, pid, tm, first, first + 2, MultiPair(first), PairTime(tm, b.kind.numPairs), {first});
  }

  lemma WaitAllCallback(b: Block, pid: int, tm: Timing, first: int)
    requires b.kind.QC? && b.kind.waitAll && b.kind.callback.Some?
    ensures IsTask(BlockGraph(b, pid, tm, first).tasks, pid, first + 3, MultiPairCallback(b.kind.callback.value, first),
                   IfKnown(tm, Latency(tm).qnosInstr), {first + 2})
  {
    TaskOfBlock(b, pid, tm, first, first + 3, MultiPairCallback(b.kind.callback.value, first),
                IfKnown(tm, Latency(tm).qnosInstr), {first + 2});
  }

  /** A request that waits for all pairs: call, all pairs in one task, the callback if there
      is one, return. */
  ghost predicate IsWaitAllGraph(m: TaskMap, b: Block, pid: int, tm: Timing, first: int)
    requires b.kind.QC?
  {
    && IsTask(m, pid, first + 2, MultiPair(first), PairTime(tm, b.kind.numPairs), {first})
    && match b.kind.callback
       case None =>
         m.Keys == {first, first + 1, first + 2} && IsCall(m, b, pid, tm, first, first + 1, {first + 2})
       case Some(callback) =>
         && m.Keys == {first, first + 1, first + 2, first + 3}
         && IsCall(m, b, pid, tm, first, first + 1, {first + 3})
         && IsTask(m, pid, first + 3, MultiPairCallback(callback, first), IfKnown(tm, Latency(tm).qnosInstr), {first + 2})
  }

  lemma WaitAllBlock(b: Block, pid: int, tm: Timing, first: int)
    requires b.kind.QC? && b.kind.waitAll
    ensures IsWaitAllGraph(BlockGraph(b, pid, tm, first).tasks, b, pid, tm, first)
  {
    CallOfBlock(b, pid, tm, first, {if b.kind.callback.Some? then first + 3 else first + 2});
    WaitAllPairs(b, pid, tm, first);
    if b.kind.callback.Some? {
      WaitAllCallback(b, pid, tm, first);
    }
  }

  // The ids of the pairs of a sequential request, without and with a callback, and those
  // of the callbacks.

  ghost function PlainPair(first: int, i: int): int {
    first + 2 + i
  }

  ghost function EvenPair(first: int, i: int): int {
    first + 2 + 2 * i
  }

  ghost function OddCallback(first: int, i: int): int {
    first + 3 + 2 * i
  }

  ghost function PlainPairs(first: int, n: int): set<int> {
    set i | 0 <= i < n :: PlainPair(first, i)
  }

  ghost function EvenPairs(first: int, n: int): set<int> {
    set i | 0 <= i < n :: EvenPair(first, i)
  }

  ghost function OddCallbacks(first: int, n: int): set<int> {
    set i | 0 <= i < n :: OddCallback(first, i)
  }

  lemma PairIds(first: int, n: int, x: int)
    ensures x in PlainPairs(first, n) <==> first + 2 <= x < first + 2 + n
  {
    if first + 2 <= x < first + 2 + n {
      assert x == PlainPair(first, x - first - 2);
    }
  }

  lemma SequentialTasks(b: Block, first: int)
    requires b.kind.QC? && !b.kind.waitAll && b.kind.callback.None?
    ensures Ids(b, first) == {first, first + 1} + PlainPairs(first, b.kind.numPairs)
    ensures PredsAt(b, first, first + 1) == PlainPairs(first, b.kind.numPairs)
  {
    forall x ensures x in Ids(b, first) <==> x in {first, first + 1} + PlainPairs(first, b.kind.numPairs)
             ensures x in PredsAt(b, first, first + 1) <==> x in PlainPairs(first, b.kind.numPairs) {
      PairIds(first, b.kind.numPairs, x);
    }
  }

  lemma PairOfBlock(b: Block, pid: int, tm: Timing, first: int, i: int)
    requires b.kind.QC? && !b.kind.waitAll && b.kind.callback.None? && 0 <= i < b.kind.numPairs
    ensures IsTask(BlockGraph(b, pid, tm, first).tasks, pid, PlainPair(first, i), SinglePair(i, first), tm.pairDuration, {first})
  {
    TaskOfBlock(b, pid, tm, first, first + 2 + i, SinglePair(i, first), tm.pairDuration, {first});
  }

  /** Pair `i` and its callback. */
  ghost predicate HasPair(m: TaskMap, b: Block, pid: int, tm: Timing, first: int, i: int)
    requires b.kind.QC? && b.kind.callback.Some?
  {
    var pair, callback := EvenPair(first, i), OddCallback(first, i);
    && IsTask(m, pid, pair, SinglePair(i, first), tm.pairDuration, {first})
    && IsTask(m, pid, callback, SinglePairCallback(b.kind.callback.value, i, first), IfKnown(tm, Latency(tm).qnosInstr), {pair})
  }

  /** Sequential pairs: a task for each, in no order among each other, between call and
      return. With a callback, each pair is followed by its own, and the return waits for all
      of those. */
  ghost predicate IsSequentialGraph(m: TaskMap, b: Block, pid: int, tm: Timing, first: int)
    requires b.kind.QC?
  {
    var n := b.kind.numPairs;
    if b.kind.callback.None? then
      && m.Keys == {first, first + 1} + PlainPairs(first, n)
      && IsCall(m, b, pid, tm, first, first + 1, PlainPairs(first, n))
      && forall i :: 0 <= i < n ==> IsTask(m, pid, PlainPair(first, i), SinglePair(i, first), tm.pairDuration, {first})
    else
      && m.Keys == {first, first + 1} + EvenPairs(first, n) + OddCallbacks(first, n)
      && IsCall(m, b, pid, tm, first, first + 1, OddCallbacks(first, n))
      && forall i :: 0 <= i < n ==> HasPair(m, b, pid, tm, first, i)
  }

  lemma SequentialBlock(b: Block, pid: int, tm: Timing, first: int)
    requires b.kind.QC? && !b.kind.waitAll && b.kind.callback.None?
    ensures IsSequentialGraph(BlockGraph(b, pid, tm, first).tasks, b, pid, tm, first)
  {
    var m := BlockGraph(b, pid, tm, first).tasks;
    SequentialTasks(b, first);
    CallOfBlock(b, pid, tm, first, PlainPairs(first, b.kind.numPairs));
    forall i | 0 <= i < b.kind.numPairs
      ensures IsTask(m, pid, PlainPair(first, i), SinglePair(i, first), tm.pairDuration, {first})
    {
      PairOfBlock(b, pid, tm, first, i);
    }
  }

  lemma EvenIds(first: int, n: int, x: int)
    ensures x in EvenPairs(first, n) <==> first + 2 <= x < first + 2 + 2 * n && (x - first) % 2 == 0
  {
    if first + 2 <= x < first + 2 + 2 * n && (x - first) % 2 == 0 {
      assert x == EvenPair(first, (x - first - 2) / 2);
    }
  }

  lemma OddIds(first: int, n: int, x: int)
    ensures x in OddCallbacks(first, n) <==> first + 3 <= x < first + 3 + 2 * n && (x - first) % 2 == 1
  {
    if first + 3 <= x < first + 3 + 2 * n && (x - first) % 2 == 1 {
      assert x == OddCallback(first, (x - first - 3) / 2);
    }
  }

  lemma SequentialCallbackId(b: Block, first: int, x: int)
    requires b.kind.QC? && !b.kind.waitAll && b.kind.callback.Some?
    ensures var n := b.kind.numPairs;
            x in Ids(b, first) <==> x in {first, first + 1} + EvenPairs(first, n) + OddCallbacks(first, n)
    ensures x in PredsAt(b, first, first + 1) <==> x in OddCallbacks(first, b.kind.numPairs)
  {
    EvenIds(first, b.kind.numPairs, x);
    OddIds(first, b.kind.numPairs, x);
  }

  lemma SequentialCallbackTasks(b: Block, first: int)
    requires b.kind.QC? && !b.kind.waitAll && b.kind.callback.Some?
    ensures var n := b.kind.numPairs;
            Ids(b, first) == {first, first + 1} + EvenPairs(first, n) + OddCallbacks(first, n)
    ensures PredsAt(b, first, first + 1) == OddCallbacks(first, b.kind.numPairs)
  {
    var ids, preds := Ids(b, first), PredsAt(b, first, first + 1);
    var tasks := {first, first + 1} + EvenPairs(first, b.kind.numPairs) + OddCallbacks(first, b.kind.numPairs);
    forall x ensures x in ids <==> x in tasks {
      SequentialCallbackId(b, first, x);
    }
    forall x ensures x in preds <==> x in OddCallbacks(first, b.kind.numPairs) {
      SequentialCallbackId(b, first, x);
    }
  }

  lemma PairBeforeCallback(b: Block, pid: int, tm: Timing, first: int, i: int)
    requires b.kind.QC? && !b.kind.waitAll && b.kind.callback.Some? && 0 <= i < b.kind.numPairs
    ensures IsTask(BlockGraph(b, pid, tm, first).tasks, pid, EvenPair(first, i), SinglePair(i, first), tm.pairDuration, {first})
  {
    TaskOfBlock(b, pid, tm, first, EvenPair(first, i), SinglePair(i, first), tm.pairDuration, {first});
  }

  lemma CallbackAfterPair(b: Block, pid: int, tm: Timing, first: int, i: int)
    requires b.kind.QC? && !b.kind.waitAll && b.kind.callback.Some? && 0 <= i < b.kind.numPairs
    ensures IsTask(BlockGraph(b, pid, tm, first).tasks, pid, OddCallback(first, i),
                   SinglePairCallback(b.kind.callback.value, i, first), IfKnown(tm, Latency(tm).qnosInstr),
                   {EvenPair(first, i)})
  {
    TaskOfBlock(b, pid, tm, first, OddCallback(first, i), SinglePairCallback(b.kind.callback.value, i, first),
                IfKnown(tm, Latency(tm).qnosInstr), {EvenPair(first, i)});
  }

  lemma SequentialCallbackBlock(b: Block, pid: int, tm: Timing, first: int)
    requires b.kind.QC? && !b.kind.waitAll && b.kind.callback.Some?
    ensures IsSequentialGraph(BlockGraph(b, pid, tm, first).tasks, b, pid, tm, first)
  {
    SequentialCallbackTasks(b, first);
    CallOfBlock(b, pid, tm, first, OddCallbacks(first, b.kind.numPairs));
    forall i | 0 <= i < b.kind.numPairs ensures HasPair(BlockGraph(b, pid, tm, first).tasks, b, pid, tm, first, i) {
      PairBeforeCallback(b, pid, tm, first, i);
      CallbackAfterPair(b, pid, tm, first, i);
    }
  }

  /** Only receive blocks have a receive task, and that is all they have. */
  lemma ReceivesIffCC(b: Block, pid: int, tm: Timing, first: int, t: int)
    requires t in BlockGraph(b, pid, tm, first).tasks
    ensures BlockGraph(b, pid, tm, first).tasks[t].task.kind.HostEvent? <==> b.kind.CC?
  {
  }

  /** The host runs the first task and the exit task of a block, the quantum core the others. */
  lemma HostRunsTheEnds(b: Block, pid: int, tm: Timing, first: int, t: int)
    requires t in BlockGraph(b, pid, tm, first).tasks
    ensures BlockGraph(b, pid, tm, first).tasks[t].task.Processor() == CPU <==>
              t == first || t == first + (match b.kind case QL(_) => 2 case QC(_, _, _) => 1 case _ => 0)
  {
  }

  // ----- any block -----

  /** The tasks `m` are those of the block, with ids from `first`. */
  ghost predicate IsGraphOf(m: TaskMap, b: Block, pid: int, tm: Timing, first: int) {
    match b.kind
    case CL(instructions) =>
      m.Keys == {first} && IsTask(m, pid, first, HostLocal(b.name), IfKnown(tm, Latency(tm).hostInstr * instructions), {})
    case CC => m.Keys == {first} && IsTask(m, pid, first, HostEvent(b.name), IfKnown(tm, Latency(tm).hostPeer), {})
    case QL(_) => IsRoutineGraph(m, b, pid, tm, first)
    case QC(waitAll, _, _) =>
      if waitAll then IsWaitAllGraph(m, b, pid, tm, first) else IsSequentialGraph(m, b, pid, tm, first)
  }

  lemma BlockGraphIs(b: Block, pid: int, tm: Timing, first: int)
    ensures IsGraphOf(BlockGraph(b, pid, tm, first).tasks, b, pid, tm, first)
  {
    match b.kind
    case CL(_) => ClassicalBlock(b, pid, tm, first);
    case CC => ReceiveBlock(b, pid, tm, first);
    case QL(_) => RoutineBlock(b, pid, tm, first);
    case QC(waitAll, callback, _) =>
      if waitAll {
        WaitAllBlock(b, pid, tm, first);
      } else if callback.None? {
        SequentialBlock(b, pid, tm, first);
      } else {
        SequentialCallbackBlock(b, pid, tm, first);
      }
  }
}
