/** The two builders of task graphs (qoala/runtime/task.py:761-1189). */
module GraphBuilders {
  import opened Tasks
  import opened GraphOps
  import opened TaskGraphs
  import opened Programs
  import opened Builders
  import opened BuilderLemmas
  import opened ProgramTheorems
  import opened BlockTheorems

  lemma SingleAdds(g: Graph, b: Block, pid: int, tm: Timing, first: int)
    requires (b.kind.CL? || b.kind.CC?) && FreshFrom(g, first)
    ensures Added(g, TaskAt(b, pid, tm, first, first)) == Merge(g, BlockGraph(b, pid, tm, first))
  {
    OffsetsAre(first);
    NoPreds(b, first, first);
    assert Ids(b, first) == {first};
    PutsIsMerge(g, Added(g, TaskAt(b, pid, tm, first, first)), b, pid, tm, first);
  }

  /** Creates the tasks of one block, behind those that `graph` already has. */
  method AddBlockTasks(ids: TaskIds, graph: TaskGraph, b: Block, pid: int, tm: Timing)
    requires FreshFrom(graph.Value(), ids.counter)
    modifies ids, graph
    ensures ids.counter == old(ids.counter) + Size(b)
    ensures graph.Value() == Merge(old(graph.Value()), BlockGraph(b, pid, tm, old(ids.counter)))
  {
    ghost var g, first := graph.Value(), ids.counter;
    match b.kind {
      case CL(instructions) =>
        var duration := if tm.ehi.Some? then Some(tm.ehi.value.hostInstr * instructions) else None;
        var id := ids.UniqueId();
        graph.AddTask(Task(id, pid, HostLocal(b.name), duration));
        SingleAdds(g, b, pid, tm, first);
      case CC =>
        var duration := if tm.ehi.Some? then Some(tm.ehi.value.hostPeer) else None;
        var id := ids.UniqueId();
        graph.AddTask(Task(id, pid, HostEvent(b.name), duration));
        SingleAdds(g, b, pid, tm, first);
      case QL(_) =>
        ids.AddRoutine(graph, pid, b.name, TimesOf(b, tm));
        RoutineAdds(g, b, pid, tm, first);
      case QC(waitAll, callback, numPairs) =>
        if waitAll {
          ids.AddWaitAll(graph, pid, b.name, callback, TimesOf(b, tm));
          WaitAllAdds(g, b, pid, tm, first);
        } else {
          ids.AddSequential(graph, pid, b.name, callback, TimesOf(b, tm), numPairs);
          SequentialAdds(g, b, pid, tm, first);
        }
    }
  }

  /** `TaskGraphFromBlockBuilder`: one counter for all blocks of a node. */
  class BlockGraphBuilder {
    const ids: TaskIds

    constructor ()
      ensures fresh(ids) && ids.counter == 0
    {
      ids := new TaskIds(0);
    }

    method Build(b: Block, pid: int, tm: Timing) returns (graph: TaskGraph)
      modifies ids
      ensures fresh(graph) && graph.Value() == BlockGraph(b, pid, tm, old(ids.counter))
      ensures IsGraphOf(graph.tasks, b, pid, tm, old(ids.counter))
      ensures ids.counter == old(ids.counter) + Size(b)
    {
      BlockGraphIs(b, pid, tm, ids.counter);
      graph := new TaskGraph();
      AddBlockTasks(ids, graph, b, pid, tm);
      assert [] + BlockGraph(b, pid, tm, old(ids.counter)).order == BlockGraph(b, pid, tm, old(ids.counter)).order;
      assert map[] + BlockGraph(b, pid, tm, old(ids.counter)).tasks == BlockGraph(b, pid, tm, old(ids.counter)).tasks;
    }
  }

  // ----- whole programs -----

  lemma PlacedIsLinked(g: Graph, b: Block, pid: int, tm: Timing, first: int, prev: Option<int>, rel: map<int, int>)
    requires FreshFrom(g, first)
    ensures var h := Merge(g, BlockGraph(b, pid, tm, first));
            && first in h.tasks
            && h.tasks[first].relDeadlines == map[]
            && Merge(g, Placed(b, pid, tm, first, prev, rel)) ==
               h.(tasks := h.tasks[first := Linkup(h.tasks[first], prev, rel)])
  {
    assert first in Ids(b, first);
    UpdateOfSum(g.tasks, BlockGraph(b, pid, tm, first).tasks, first,
                Linkup(BlockGraph(b, pid, tm, first).tasks[first], prev, rel));
  }

  lemma UpdateOfSum(m: TaskMap, h: TaskMap, t: int, info: TaskInfo)
    ensures (m + h)[t := info] == m + h[t := info]
  {
  }

  method ResolveDeadlines(names: map<string, int>, deadlines: seq<(string, int)>) returns (rel: Option<map<int, int>>)
    ensures rel == RelDeadlines(names, deadlines)
  {
    var result: map<int, int> := map[];
    for i := 0 to |deadlines|
      invariant RelDeadlines(names, deadlines[..i]) == Some(result)
    {
      assert deadlines[..i + 1][..i] == deadlines[..i];
      var (block, deadline) := deadlines[i];
      if block !in names {
        UnresolvedStays(names, deadlines, i + 1);
        return None;
      }
      result := result[names[block] := deadline];
    }
    assert deadlines[..|deadlines|] == deadlines;
    rel := Some(result);
  }

  lemma {:induction false} UnresolvedStays(names: map<string, int>, deadlines: seq<(string, int)>, n: nat)
    requires n <= |deadlines| && RelDeadlines(names, deadlines[..n]).None?
    ensures RelDeadlines(names, deadlines).None?
    decreases |deadlines| - n
  {
    if n == |deadlines| {
      assert deadlines[..n] == deadlines;
    } else {
      assert deadlines[..n + 1][..n] == deadlines[..n];
      UnresolvedStays(names, deadlines, n + 1);
    }
  }

  lemma {:induction false} FailureStays(blocks: seq<Block>, pid: int, tm: Timing, first: int, n: nat)
    requires n <= |blocks| && BuildBlocks(blocks[..n], pid, tm, first).None?
    ensures BuildBlocks(blocks, pid, tm, first).None?
    decreases |blocks| - n
  {
    if n == |blocks| {
      assert blocks[..n] == blocks;
    } else {
      assert blocks[..n + 1][..n] == blocks[..n];
      FailureStays(blocks, pid, tm, first, n + 1);
    }
  }

  lemma AddBlockLinks(p: Progress, b: Block, pid: int, tm: Timing, rel: map<int, int>)
    requires FreshFrom(p.graph, p.counter) && DeadlinesOf(p, b) == Some(rel)
    ensures var h := Merge(p.graph, BlockGraph(b, pid, tm, p.counter));
            && p.counter in h.tasks && h.tasks[p.counter].relDeadlines == map[]
            && AddBlock(p, b, pid, tm) ==
               Some(Progress(h.(tasks := h.tasks[p.counter := Linkup(h.tasks[p.counter], p.prev, rel)]),
                             p.names[b.name := Exit(b, p.counter)], Some(Exit(b, p.counter)), p.counter + Size(b)))
  {
    PlacedIsLinked(p.graph, b, pid, tm, p.counter, p.prev, rel);
  }

  lemma DeadlinesIgnorePrev(p: Progress, q: Progress, b: Block)
    requires p.names == q.names && p.counter == q.counter
    ensures DeadlinesOf(p, b) == DeadlinesOf(q, b)
    ensures DeadlinesOf(p, b).None? ==> forall pid, tm :: AddBlock(p, b, pid, tm).None?
  {
  }

  lemma LinkSteps(h: Graph, entry: int, prev: Option<int>, rel: map<int, int>)
    requires entry in h.tasks && h.tasks[entry].relDeadlines == map[]
    ensures var h' := if prev.Some? then Preceded(h, entry, prev.value) else h;
            var info := h'.tasks[entry];
            && h'.(tasks := h'.tasks[entry := info.(relDeadlines := info.relDeadlines + rel)]) ==
               h.(tasks := h.tasks[entry := Linkup(h.tasks[entry], prev, rel)])
  {
    assert map[] + rel == rel;
    assert h.tasks[entry].preds + {} == h.tasks[entry].preds;
  }

  /** `QoalaGraphFromProgramBuilder`. */
  class ProgramGraphBuilder {
    const ids: TaskIds
    const graph: TaskGraph
    var names: map<string, int>

    constructor (first: int)
      ensures fresh(ids) && fresh(graph)
      ensures ids.counter == first && graph.Value() == EmptyGraph && names == map[]
    {
      ids := new TaskIds(first);
      graph := new TaskGraph();
      names := map[];
    }

    ghost function State(prev: Option<int>): Progress
      reads this, ids, graph
    {
      Progress(graph.Value(), names, prev, ids.counter)
    }

    /** The deadlines of one block; None models a KeyError. */
    method BlockDeadlines(b: Block) returns (rel: Option<map<int, int>>)
      ensures rel == DeadlinesOf(State(None), b)
    {
      match b.kind {
        case CL(_) => rel := ResolveDeadlines(names[b.name := ids.counter], b.deadlines);
        case QL(_) => rel := ResolveDeadlines(names, b.deadlines);
        case _ => rel := Some(map[]);
      }
    }

    method LinkEntry(entry: int, prev: Option<int>, rel: map<int, int>)
      requires entry in graph.tasks && graph.tasks[entry].relDeadlines == map[]
      modifies graph
      ensures var h := old(graph.Value());
              graph.Value() == h.(tasks := h.tasks[entry := Linkup(h.tasks[entry], prev, rel)])
    {
      LinkSteps(graph.Value(), entry, prev, rel);
      if prev.Some? {
        graph.AddPredecessor(entry, prev.value);
      }
      graph.SetRelDeadlines(entry, rel);
    }

    /** One round of the loop over the blocks. */
    method BuildBlock(b: Block, pid: int, tm: Timing, prev: Option<int>) returns (exit: Option<int>)
      requires FreshFrom(graph.Value(), ids.counter)
      modifies this, ids, graph
      ensures exit.Some? <==> AddBlock(old(State(prev)), b, pid, tm).Some?
      ensures exit.Some? ==> AddBlock(old(State(prev)), b, pid, tm) == Some(State(exit))
    {
      ghost var before := State(prev);
      var rel := BlockDeadlines(b);
      DeadlinesIgnorePrev(before, State(None), b);
      if rel.None? {
        return None;
      }
      exit := AddLinked(b, pid, tm, prev, rel.value);
    }

    method AddLinked(b: Block, pid: int, tm: Timing, prev: Option<int>, rel: map<int, int>) returns (exit: Option<int>)
      requires FreshFrom(graph.Value(), ids.counter) && DeadlinesOf(State(prev), b) == Some(rel)
      modifies this, ids, graph
      ensures exit.Some? && AddBlock(old(State(prev)), b, pid, tm) == Some(State(exit))
    {
      AddBlockLinks(State(prev), b, pid, tm, rel);
      var entry := ids.counter;
      ghost var h := Merge(graph.Value(), BlockGraph(b, pid, tm, entry));
      AddBlockTasks(ids, graph, b, pid, tm);
      assert graph.Value() == h;
      names := names[b.name := Exit(b, entry)];
      LinkEntry(entry, prev, rel);
      assert graph.Value() == h.(tasks := h.tasks[entry := Linkup(h.tasks[entry], prev, rel)]);
      exit := Some(Exit(b, entry));
    }

    method Build(blocks: seq<Block>, pid: int, tm: Timing) returns (ok: bool)
      requires graph.Value() == EmptyGraph && names == map[]
      modifies this, ids, graph
      ensures ok <==> ProgramGraph(blocks, pid, tm, old(ids.counter)).Some?
      ensures ok ==> Some(graph.Value()) == ProgramGraph(blocks, pid, tm, old(ids.counter))
    {
      ghost var first := ids.counter;
      var prev: Option<int> := None;
      for i := 0 to |blocks|
        invariant BuildBlocks(blocks[..i], pid, tm, first) == Some(State(prev))
      {
        assert blocks[..i + 1][..i] == blocks[..i];
        BuiltIsFresh(blocks[..i], pid, tm, first);
        prev := BuildBlock(blocks[i], pid, tm, prev);
        if prev.None? {
          FailureStays(blocks, pid, tm, first, i + 1);
          return false;
        }
      }
      assert blocks[..|blocks|] == blocks;
      BuildIsBuilt(blocks, pid, tm, first);
      graph.UpdateSuccessors();
      ok := true;
    }
  }

  lemma BuiltIsFresh(blocks: seq<Block>, pid: int, tm: Timing, first: int)
    requires BuildBlocks(blocks, pid, tm, first).Some?
    ensures var p := BuildBlocks(blocks, pid, tm, first).value;
            FreshFrom(p.graph, p.counter)
  {
    BuildIsBuilt(blocks, pid, tm, first);
  }
}
