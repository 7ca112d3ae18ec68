/** The pointers over which the tasks of one call share it (qoala/sim/driver.py:32-51, 82-128;
    qoala/sim/scheduler.py:1045-1094): written by the pre-call task, read by all others. */
module SharedPointers {
  import opened Tasks
  import opened Reachability
  import opened Projection
  import opened GraphOps
  import opened TwoCore
  import opened TwoCoreSafety
  import opened TwoCoreTheorems
  import opened Programs
  import opened ProgramTheorems

  /** The pointer a task reads when it runs, or when its resources are probed. */
  function Reads(kind: TaskKind): Option<int> {
    match kind
    case LocalRoutine(_, ptr) => Some(ptr)
    case PostCall(_, ptr) => Some(ptr)
    case SinglePair(_, ptr) => Some(ptr)
    case MultiPair(ptr) => Some(ptr)
    case SinglePairCallback(_, _, ptr) => Some(ptr)
    case MultiPairCallback(_, ptr) => Some(ptr)
    case _ => None
  }

  function Writes(kind: TaskKind): Option<int> {
    match kind
    case PreCall(_, ptr) => Some(ptr)
    case _ => None
  }

  lemma FullGrows(ss: seq<System>, es: seq<Event>, i: nat, t: int)
    requires IsRun(ss, es) && i < |es| && t in ss[i].full.tasks
    ensures t in ss[i + 1].full.tasks && ss[i + 1].full.tasks[t] == ss[i].full.tasks[t]
  {
    assert StepAt(ss, es, i);
  }

  lemma FullAdds(ss: seq<System>, es: seq<Event>, i: nat, t: int)
    requires IsRun(ss, es) && i < |es| && es[i].Add? && t in es[i].added.tasks
    ensures t in ss[i + 1].full.tasks && ss[i + 1].full.tasks[t] == es[i].added.tasks[t]
  {
    assert StepAt(ss, es, i);
  }

  lemma {:induction false} AddedStays(ss: seq<System>, es: seq<Event>, k: nat, i: nat, t: int)
    requires IsRun(ss, es) && k < i <= |es| && es[k].Add? && t in es[k].added.tasks
    ensures t in ss[i].full.tasks && ss[i].full.tasks[t] == es[k].added.tasks[t]
    decreases i
  {
    if i == k + 1 {
      FullAdds(ss, es, k, t);
    } else {
      AddedStays(ss, es, k, i - 1, t);
      FullGrows(ss, es, i - 1, t);
    }
  }

  /** In every run: when a task is ready, its ancestors in the graph it came with are done. */
  lemma ReadyAfterAncestors(ss: seq<System>, es: seq<Event>, k: nat, i: nat, proc: ProcessorType, a: int, t: int)
    requires IsRun(ss, es) && k < i <= |es| && es[k].Add?
    requires Ancestor(es[k].added.tasks, a, t) && t in Roots(Polled(ss[i], proc), false)
    ensures a in ss[i].history
  {
    forall x | x in es[k].added.tasks
      ensures x in ss[i].full.tasks && es[k].added.tasks[x].preds <= ss[i].full.tasks[x].preds
    {
      AddedStays(ss, es, k, i, x);
    }
    AncestorGrows(es[k].added.tasks, ss[i].full.tasks, a, t);
    RunFacts(ss, es, i);
    RunReady(ss, es, i, proc);
    assert t in ReadySet(ss[i], proc);
    TopologicalIsClosed(ss[i].full.tasks, ss[i].history, a, t);
  }

  /** Every task of a call but the first reads the pointer that the first one writes; no
      other block has tasks that read or write one. */
  lemma ReadersShareTheEntry(b: Block, pid: int, tm: Timing, first: int, t: int)
    requires t in Ids(b, first)
    ensures var kind, isCall := BlockGraph(b, pid, tm, first).tasks[t].task.kind, b.kind.QL? || b.kind.QC?;
            && Reads(kind) == (if isCall && t != first then Some(first) else None)
            && Writes(kind) == (if isCall && t == first then Some(first) else None)
    ensures BlockGraph(b, pid, tm, first).tasks[t].task == TaskAt(b, pid, tm, first, t)
  {
  }

  /** A task of block `b`, uploaded by event `k`, may read its pointer after `i` events. */
  ghost predicate MayRead(ss: seq<System>, es: seq<Event>, k: nat, i: nat, proc: ProcessorType, t: int,
                          b: Block, pid: int, tm: Timing, first: int)
  {
    && IsRun(ss, es) && k < i <= |es| && es[k] == Add(BlockGraph(b, pid, tm, first))
    && t in Ids(b, first) && Reads(TaskAt(b, pid, tm, first, t).kind).Some?
    && t in Roots(Polled(ss[i], proc), false)
  }

  ghost predicate WrittenBeforeRead(b: Block, pid: int, tm: Timing, first: int) {
    forall ss: seq<System>, es, k: nat, i: nat, proc, t {:trigger MayRead(ss, es, k, i, proc, t, b, pid, tm, first)} ::
      MayRead(ss, es, k, i, proc, t, b, pid, tm, first) ==> first in ss[i].history
  }

  lemma OneStepRun(e: Event, s: System)
    requires Enabled(Initial, e) && Apply(Initial, e) == Some(s)
    ensures IsRun([Initial, s], [e])
  {
    assert StepAt([Initial, s], [e], 0);
  }

  lemma AddKeepsHistory(s: System, h: Graph)
    requires Enabled(s, Add(h)) && Apply(s, Add(h)).Some?
    ensures Apply(s, Add(h)).value.history == s.history
  {
  }

  lemma UploadRun(h: Graph) returns (ss: seq<System>, es: seq<Event>)
    requires IsDag(h)
    ensures IsRun(ss, es) && es == [Add(h)] && |ss| == 2 && ss[1].full == h && ss[1].history == []
  {
    UploadQueuesEverything(h);
    assert h.tasks.Keys !! EmptyGraph.tasks.Keys;
    AddKeepsHistory(Initial, h);
    es := [Add(h)];
    ss := [Initial, Apply(Initial, Add(h)).value];
    OneStepRun(Add(h), ss[1]);
  }

  lemma SourceIsReady(ss: seq<System>, es: seq<Event>, i: nat, t: int)
    requires IsRun(ss, es) && i < |ss| && ss[i].history == []
    requires t in ss[i].full.tasks && ss[i].full.tasks[t].preds == {}
    ensures t in Roots(Polled(ss[i], Proc(ss[i].full.tasks, t)), false)
  {
    var proc := Proc(ss[i].full.tasks, t);
    RunFacts(ss, es, i);
    SplitGraphsRefineFullGraph(ss, es, i, proc);
    assert t in ReadySet(ss[i], proc);
    assert t in Elements(ss[i].full.order);
  }

  lemma DisconnectedReadsTooEarly(b: Block, pid: int, tm: Timing, first: int) returns (ss: seq<System>, es: seq<Event>)
    requires !Connected(b)
    ensures MayRead(ss, es, 0, 1, CPU, Exit(b, first), b, pid, tm, first) && |ss| == 2 && ss[1].history == []
  {
    BlockIsDag(b, pid, tm, first);
    ss, es := UploadRun(BlockGraph(b, pid, tm, first));
    DisconnectedExit(b, pid, tm, first);
    SourceIsReady(ss, es, 1, Exit(b, first));
  }

  /** In no run is a pointer read before it is written, exactly if the block is not a
      sequential request without pairs. */
  lemma WrittenBeforeReadIffConnected(b: Block, pid: int, tm: Timing, first: int)
    ensures WrittenBeforeRead(b, pid, tm, first) <==> Connected(b)
  {
    if Connected(b) {
      forall ss: seq<System>, es, k: nat, i: nat, proc, t | MayRead(ss, es, k, i, proc, t, b, pid, tm, first) ensures first in ss[i].history {
        ReadersShareTheEntry(b, pid, tm, first, t);
        EntryPrecedes(b, pid, tm, first, t);
        ReadyAfterAncestors(ss, es, k, i, proc, first, t);
      }
    } else {
      var ss, es := DisconnectedReadsTooEarly(b, pid, tm, first);
      assert first !in ss[1].history;
    }
  }

  /** The same for the blocks of a program that is uploaded as a whole. */
  lemma ProgramPointersAreWritten(blocks: seq<Block>, pid: int, tm: Timing, first: int,
                                  ss: seq<System>, es: seq<Event>, k: nat, i: nat, proc: ProcessorType, j: nat, t: int)
    requires ProgramGraph(blocks, pid, tm, first).Some? && j < |blocks| && Connected(blocks[j])
    requires IsRun(ss, es) && k < i <= |es| && es[k] == Add(ProgramGraph(blocks, pid, tm, first).value)
    requires t in Ids(blocks[j], FirstId(blocks, first, j)) && t in Roots(Polled(ss[i], proc), false)
    requires Reads(TaskAt(blocks[j], pid, tm, FirstId(blocks, first, j), t).kind).Some?
    ensures t in ss[i].full.tasks && t in es[k].added.tasks
    ensures var ptr := Reads(ss[i].full.tasks[t].task.kind);
            && ptr.Some? && ptr.value in ss[i].history
            && ptr.value in ss[i].full.tasks && Writes(ss[i].full.tasks[ptr.value].task.kind) == ptr
  {
    var m := es[k].added.tasks;
    var entry := FirstId(blocks, first, j);
    ProgramGraphIsDag(blocks, pid, tm, first);
    ReadersShareTheEntry(blocks[j], pid, tm, entry, t);
    EntryPrecedes(blocks[j], pid, tm, entry, t);
    BlockInside(blocks, pid, tm, first, m, j, entry, t);
    ReadyAfterAncestors(ss, es, k, i, proc, entry, t);
    ChainedAt(blocks, pid, tm, first, m, j, t);
    ChainedAt(blocks, pid, tm, first, m, j, entry);
    AddedStays(ss, es, k, i, t);
    AddedStays(ss, es, k, i, entry);
  }
}
