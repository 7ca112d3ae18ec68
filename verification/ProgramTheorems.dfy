/** What the graphs of whole programs guarantee. */
module ProgramTheorems {
  import opened Tasks
  import opened Reachability
  import opened GraphOps
  import opened TaskGraphs
  import opened TwoCore
  import opened TwoCoreSafety
  import opened TwoCoreTheorems
  import opened Programs

  // ----- the built graph is the chain of its blocks -----

  ghost predicate IsBuilt(blocks: seq<Block>, pid: int, tm: Timing, first: int, p: Progress) {
    && p.counter == FirstId(blocks, first, |blocks|)
    && p.prev == (if blocks == [] then None
                  else Some(Exit(blocks[|blocks| - 1], FirstId(blocks, first, |blocks| - 1))))
    && Chained(blocks, pid, tm, first, p.graph.tasks)
    && IsDag(p.graph)
  }

  lemma PlacedTask(b: Block, pid: int, tm: Timing, first: int, prev: Option<int>, rel: map<int, int>, t: int)
    requires t in Ids(b, first)
    ensures var info := Placed(b, pid, tm, first, prev, rel).tasks[t];
            && info.task == TaskAt(b, pid, tm, first, t)
            && info.preds == PredsAt(b, first, t) + if t == first && prev.Some? then {prev.value} else {}
  {
  }

  /** What is said of a block does not depend on the blocks behind it. */
  lemma PredsOfPrefix(blocks: seq<Block>, all: seq<Block>, first: int, i: nat, t: int)
    requires blocks <= all && i < |blocks|
    ensures FirstId(all, first, i) == FirstId(blocks, first, i) && all[i] == blocks[i]
    ensures ProgramPreds(all, first, i, t) == ProgramPreds(blocks, first, i, t)
  {
    assert all[..|blocks|] == blocks;
    FirstIdOfPrefix(all, first, |blocks|, i);
    if i > 0 { FirstIdOfPrefix(all, first, |blocks|, i - 1); }
  }

  lemma IdsBefore(blocks: seq<Block>, first: int, i: nat, t: int)
    requires i < |blocks| && t in Ids(blocks[i], FirstId(blocks, first, i))
    ensures t < FirstId(blocks, first, |blocks|)
  {
    FirstIdsRise(blocks, first, i, |blocks|);
  }

  lemma OldTaskStays(blocks: seq<Block>, b: Block, pid: int, tm: Timing, first: int, p: Progress, q: Progress,
                     i: nat, t: int)
    requires IsBuilt(blocks, pid, tm, first, p) && AddBlock(p, b, pid, tm) == Some(q)
    requires i < |blocks| && t in Ids(blocks[i], FirstId(blocks, first, i))
    ensures IsTaskOf(blocks, pid, tm, first, q.graph.tasks, i, t)
  {
    IdsBefore(blocks, first, i, t);
    ChainedAt(blocks, pid, tm, first, p.graph.tasks, i, t);
    OldTaskKept(p, b, pid, tm, q, t);
  }

  lemma OldTaskKept(p: Progress, b: Block, pid: int, tm: Timing, q: Progress, t: int)
    requires AddBlock(p, b, pid, tm) == Some(q) && t < p.counter && t in p.graph.tasks
    ensures t in q.graph.tasks && q.graph.tasks[t] == p.graph.tasks[t]
  {
  }

  /** The precedences of the first task, seen from the builder. */
  lemma PredsOfLast(blocks: seq<Block>, first: int, prev: Option<int>, start: int, t: int)
    requires blocks != [] && start == FirstId(blocks, first, |blocks| - 1)
    requires prev == if |blocks| == 1 then None else Some(Exit(blocks[|blocks| - 2], FirstId(blocks, first, |blocks| - 2)))
    ensures ProgramPreds(blocks, first, |blocks| - 1, t) ==
            PredsAt(blocks[|blocks| - 1], start, t) + if t == start && prev.Some? then {prev.value} else {}
  {
  }

  lemma NewTaskIs(p: Progress, b: Block, pid: int, tm: Timing, q: Progress, t: int)
    requires AddBlock(p, b, pid, tm) == Some(q) && t in Ids(b, p.counter)
    ensures t in q.graph.tasks && q.graph.tasks[t].task == TaskAt(b, pid, tm, p.counter, t)
    ensures q.graph.tasks[t].preds == PredsAt(b, p.counter, t) + if t == p.counter && p.prev.Some? then {p.prev.value} else {}
  {
    PlacedTask(b, pid, tm, p.counter, p.prev, DeadlinesOf(p, b).value, t);
  }

  lemma BuiltFields(blocks: seq<Block>, b: Block, pid: int, tm: Timing, first: int, p: Progress)
    requires IsBuilt(blocks, pid, tm, first, p)
    ensures var all := blocks + [b];
            && p.counter == FirstId(all, first, |blocks|)
            && p.prev == if |blocks| == 0 then None else Some(Exit(all[|blocks| - 1], FirstId(all, first, |blocks| - 1)))
  {
    var all, n := blocks + [b], |blocks|;
    assert all[..n] == blocks;
    FirstIdOfPrefix(all, first, n, n);
    if n > 0 { FirstIdOfPrefix(all, first, n, n - 1); }
  }

  lemma NewTaskPlaced(blocks: seq<Block>, b: Block, pid: int, tm: Timing, first: int, p: Progress, q: Progress, t: int)
    requires IsBuilt(blocks, pid, tm, first, p) && AddBlock(p, b, pid, tm) == Some(q)
    requires t in Ids(b, p.counter) && p.counter == FirstId(blocks + [b], first, |blocks|)
    ensures IsTaskOf(blocks + [b], pid, tm, first, q.graph.tasks, |blocks|, t)
  {
    BuiltFields(blocks, b, pid, tm, first, p);
    NewTaskIs(p, b, pid, tm, q, t);
    PredsOfLast(blocks + [b], first, p.prev, p.counter, t);
  }

  lemma AppendedIds(blocks: seq<Block>, b: Block, pid: int, tm: Timing, first: int, p: Progress, q: Progress)
    requires IsBuilt(blocks, pid, tm, first, p) && AddBlock(p, b, pid, tm) == Some(q)
    ensures q.counter == FirstId(blocks + [b], first, |blocks| + 1)
    ensures forall t :: t in q.graph.tasks <==> first <= t < q.counter
  {
    BuiltFields(blocks, b, pid, tm, first, p);
    AddedKeys(p, b, pid, tm, q);
  }

  lemma AddedKeys(p: Progress, b: Block, pid: int, tm: Timing, q: Progress)
    requires AddBlock(p, b, pid, tm) == Some(q)
    ensures q.counter == p.counter + Size(b) && q.graph.tasks.Keys == p.graph.tasks.Keys + Ids(b, p.counter)
  {
  }

  lemma AppendedTask(blocks: seq<Block>, b: Block, pid: int, tm: Timing, first: int, p: Progress, q: Progress, i: nat,
                     t: int)
    requires IsBuilt(blocks, pid, tm, first, p) && AddBlock(p, b, pid, tm) == Some(q)
    requires i <= |blocks| && t in Ids((blocks + [b])[i], FirstId(blocks + [b], first, i))
    ensures IsTaskOf(blocks + [b], pid, tm, first, q.graph.tasks, i, t)
  {
    if i < |blocks| {
      PredsOfPrefix(blocks, blocks + [b], first, i, t);
      OldTaskStays(blocks, b, pid, tm, first, p, q, i, t);
    } else {
      BuiltFields(blocks, b, pid, tm, first, p);
      NewTaskPlaced(blocks, b, pid, tm, first, p, q, t);
    }
  }

  lemma AppendKeepsChain(blocks: seq<Block>, b: Block, pid: int, tm: Timing, first: int, p: Progress, q: Progress)
    requires IsBuilt(blocks, pid, tm, first, p) && AddBlock(p, b, pid, tm) == Some(q)
    ensures Chained(blocks + [b], pid, tm, first, q.graph.tasks)
    ensures q.counter == FirstId(blocks + [b], first, |blocks| + 1)
  {
    var all := blocks + [b];
    AppendedIds(blocks, b, pid, tm, first, p, q);
    forall i, t | 0 <= i < |all| && t in Ids(all[i], FirstId(all, first, i))
      ensures IsTaskOf(all, pid, tm, first, q.graph.tasks, i, t)
    {
      AppendedTask(blocks, b, pid, tm, first, p, q, i, t);
    }
  }

  lemma AppendKeepsDag(blocks: seq<Block>, b: Block, pid: int, tm: Timing, first: int, p: Progress, q: Progress)
    requires IsBuilt(blocks, pid, tm, first, p) && AddBlock(p, b, pid, tm) == Some(q)
    ensures IsDag(q.graph)
  {
    LastExitIsBuilt(blocks, pid, tm, first, p);
    BuiltIdsAreOld(blocks, pid, tm, first, p);
    var rel := DeadlinesOf(p, b).value;
    PlacedIsDag(p.graph, b, pid, tm, p.counter, p.prev, rel);
    AddedIsMerge(p, b, pid, tm, q);
  }

  lemma LastExitIsBuilt(blocks: seq<Block>, pid: int, tm: Timing, first: int, p: Progress)
    requires IsBuilt(blocks, pid, tm, first, p)
    ensures p.prev.Some? ==> p.prev.value in p.graph.tasks
  {
    if p.prev.Some? {
      assert p.prev.value in Ids(blocks[|blocks| - 1], FirstId(blocks, first, |blocks| - 1));
    }
  }

  lemma BuiltIdsAreOld(blocks: seq<Block>, pid: int, tm: Timing, first: int, p: Progress)
    requires IsBuilt(blocks, pid, tm, first, p)
    ensures forall t :: t in p.graph.tasks ==> t < p.counter
  {
  }

  lemma AddedIsMerge(p: Progress, b: Block, pid: int, tm: Timing, q: Progress)
    requires AddBlock(p, b, pid, tm) == Some(q) && DeadlinesOf(p, b).Some?
    requires forall t :: t in p.graph.tasks ==> t < p.counter
    ensures q.graph == Merge(p.graph, Placed(b, pid, tm, p.counter, p.prev, DeadlinesOf(p, b).value))
  {
  }

  /** A placed block behind a graph with smaller ids. */
  lemma PlacedIsDag(g: Graph, b: Block, pid: int, tm: Timing, first: int, prev: Option<int>, rel: map<int, int>)
    requires IsDag(g) && (forall t :: t in g.tasks ==> t < first) && (prev.Some? ==> prev.value in g.tasks)
    ensures IsDag(Merge(g, Placed(b, pid, tm, first, prev, rel)))
  {
    var placed, h := Placed(b, pid, tm, first, prev, rel), BlockGraph(b, pid, tm, first);
    BlockIsDag(b, pid, tm, first);
    PlacedKeys(b, pid, tm, first, prev, rel);
    forall t | t in placed.tasks ensures placed.tasks[t].preds - g.tasks.Keys <= h.tasks[t].preds {
      PlacedTask(b, pid, tm, first, prev, rel, t);
    }
    DagBehind(g, placed, h);
  }

  lemma PlacedKeys(b: Block, pid: int, tm: Timing, first: int, prev: Option<int>, rel: map<int, int>)
    ensures var placed, h := Placed(b, pid, tm, first, prev, rel), BlockGraph(b, pid, tm, first);
            placed.tasks.Keys == h.tasks.Keys == Ids(b, first) && placed.order == h.order
  {
  }

  lemma DagBehind(g: Graph, placed: Graph, h: Graph)
    requires IsDag(g) && IsDag(h) && g.tasks.Keys !! h.tasks.Keys
    requires placed.tasks.Keys == h.tasks.Keys && placed.order == h.order
    requires forall t :: t in placed.tasks ==> placed.tasks[t].preds - g.tasks.Keys <= h.tasks[t].preds
    ensures IsDag(Merge(g, placed))
  {
    var m := Merge(g, placed);
    assert Behind(g.tasks, h.tasks, m.tasks);
    BehindIsAcyclic(g.tasks, h.tasks, m.tasks);
    MergedIsOrdered(g, placed);
    forall t | t in m.tasks ensures m.tasks[t].preds <= m.tasks.Keys {
      if t in placed.tasks {
        assert h.tasks[t].preds <= h.tasks.Keys;
      }
    }
  }

  lemma AddedExit(p: Progress, b: Block, pid: int, tm: Timing, q: Progress)
    requires AddBlock(p, b, pid, tm) == Some(q)
    ensures q.prev == Some(Exit(b, p.counter))
  {
  }

  lemma AppendIsBuilt(blocks: seq<Block>, pid: int, tm: Timing, first: int, p: Progress, q: Progress)
    requires blocks != [] && IsBuilt(blocks[..|blocks| - 1], pid, tm, first, p)
    requires AddBlock(p, blocks[|blocks| - 1], pid, tm) == Some(q)
    ensures IsBuilt(blocks, pid, tm, first, q)
  {
    var n := |blocks| - 1;
    var front, b := blocks[..n], blocks[n];
    assert front + [b] == blocks;
    AppendKeepsChain(front, b, pid, tm, first, p, q);
    AppendKeepsDag(front, b, pid, tm, first, p, q);
    AddedExit(p, b, pid, tm, q);
    FirstIdOfPrefix(blocks, first, n, n);
  }

  lemma EmptyIsBuilt(pid: int, tm: Timing, first: int)
    ensures IsBuilt([], pid, tm, first, Progress(EmptyGraph, map[], None, first))
  {
  }

  lemma BuildLast(blocks: seq<Block>, pid: int, tm: Timing, first: int)
    requires blocks != [] && BuildBlocks(blocks, pid, tm, first).Some?
    ensures var before := BuildBlocks(blocks[..|blocks| - 1], pid, tm, first);
            && before.Some?
            && AddBlock(before.value, blocks[|blocks| - 1], pid, tm) == BuildBlocks(blocks, pid, tm, first)
  {
  }

  lemma {:induction false} BuildIsBuilt(blocks: seq<Block>, pid: int, tm: Timing, first: int)
    requires BuildBlocks(blocks, pid, tm, first).Some?
    ensures IsBuilt(blocks, pid, tm, first, BuildBlocks(blocks, pid, tm, first).value)
  {
    if blocks == [] {
      EmptyIsBuilt(pid, tm, first);
    } else {
      BuildLast(blocks, pid, tm, first);
      BuildIsBuilt(blocks[..|blocks| - 1], pid, tm, first);
      AppendIsBuilt(blocks, pid, tm, first, BuildBlocks(blocks[..|blocks| - 1], pid, tm, first).value,
                    BuildBlocks(blocks, pid, tm, first).value);
    }
  }

  lemma SuccessorsKeepDag(g: Graph)
    requires IsDag(g)
    ensures IsDag(WithSuccessors(g))
  {
    var h := WithSuccessors(g);
    forall t | t in h.tasks ensures !Ancestor(h.tasks, t, t) {
      AncestorGrows(h.tasks, g.tasks, t, t);
    }
  }

  lemma SuccessorsKeepChain(blocks: seq<Block>, pid: int, tm: Timing, first: int, g: Graph)
    requires Chained(blocks, pid, tm, first, g.tasks)
    ensures Chained(blocks, pid, tm, first, WithSuccessors(g).tasks)
  {
    var m := WithSuccessors(g).tasks;
    forall i, t | 0 <= i < |blocks| && t in Ids(blocks[i], FirstId(blocks, first, i))
      ensures IsTaskOf(blocks, pid, tm, first, m, i, t)
    {
      ChainedAt(blocks, pid, tm, first, g.tasks, i, t);
    }
  }

  /** Every program that builds gives a DAG with the consecutive ids from `first`, whose
      tasks and precedences are those of its blocks chained from exit to entry. */
  lemma ProgramGraphIsDag(blocks: seq<Block>, pid: int, tm: Timing, first: int)
    requires ProgramGraph(blocks, pid, tm, first).Some?
    ensures var g := ProgramGraph(blocks, pid, tm, first).value;
            IsDag(g) && Chained(blocks, pid, tm, first, g.tasks)
  {
    BuildIsBuilt(blocks, pid, tm, first);
    SuccessorsKeepDag(BuildBlocks(blocks, pid, tm, first).value.graph);
    SuccessorsKeepChain(blocks, pid, tm, first, BuildBlocks(blocks, pid, tm, first).value.graph);
  }

  // ----- blocks run one after the other -----

  lemma BlockInside(blocks: seq<Block>, pid: int, tm: Timing, first: int, m: TaskMap, i: nat, a: int, t: int)
    requires Chained(blocks, pid, tm, first, m) && i < |blocks|
    ensures Ancestor(BlockGraph(blocks[i], pid, tm, FirstId(blocks, first, i)).tasks, a, t) ==> Ancestor(m, a, t)
  {
    var h := BlockGraph(blocks[i], pid, tm, FirstId(blocks, first, i)).tasks;
    forall x | x in h ensures x in m && h[x].preds <= m[x].preds {
      ChainedAt(blocks, pid, tm, first, m, i, x);
    }
    AncestorGrows(h, m, a, t);
  }

  /** With all blocks connected, a task precedes the first task of every later block. */
  lemma {:induction false} PrecedesLaterEntry(blocks: seq<Block>, pid: int, tm: Timing, first: int, m: TaskMap,
                                              i: nat, j: nat, t: int)
    requires Chained(blocks, pid, tm, first, m) && i < j < |blocks|
    requires forall b :: b in blocks ==> Connected(b)
    requires t in Ids(blocks[i], FirstId(blocks, first, i))
    ensures Ancestor(m, t, FirstId(blocks, first, j))
    decreases j
  {
    if j > i + 1 {
      PrecedesLaterEntry(blocks, pid, tm, first, m, i, j - 1, t);
      LeavesBlock(blocks, pid, tm, first, m, j - 1, FirstId(blocks, first, j - 1));
      AncestorTransitive(m, t, FirstId(blocks, first, j - 1), FirstId(blocks, first, j));
    } else {
      LeavesBlock(blocks, pid, tm, first, m, i, t);
    }
  }

  lemma LeavesBlock(blocks: seq<Block>, pid: int, tm: Timing, first: int, m: TaskMap, i: nat, t: int)
    requires Chained(blocks, pid, tm, first, m) && i + 1 < |blocks| && Connected(blocks[i])
    requires t in Ids(blocks[i], FirstId(blocks, first, i))
    ensures Ancestor(m, t, FirstId(blocks, first, i + 1))
  {
    var start, next := FirstId(blocks, first, i), FirstId(blocks, first, i + 1);
    var exit := Exit(blocks[i], start);
    ChainedAt(blocks, pid, tm, first, m, i, exit);
    ChainedAt(blocks, pid, tm, first, m, i + 1, next);
    EdgePath(m, exit, next);
    if t != exit {
      ExitFollows(blocks[i], pid, tm, start, t);
      BlockInside(blocks, pid, tm, first, m, i, t, exit);
      AncestorTransitive(m, t, exit, next);
    }
  }

  lemma EarlierPrecedesLater(blocks: seq<Block>, pid: int, tm: Timing, first: int, m: TaskMap, i: nat, j: nat, t: int,
                             u: int)
    requires Chained(blocks, pid, tm, first, m) && i < j < |blocks|
    requires forall b :: b in blocks ==> Connected(b)
    requires t in Ids(blocks[i], FirstId(blocks, first, i)) && u in Ids(blocks[j], FirstId(blocks, first, j))
    ensures Ancestor(m, t, u)
  {
    var entry := FirstId(blocks, first, j);
    PrecedesLaterEntry(blocks, pid, tm, first, m, i, j, t);
    if u != entry {
      var b := blocks[j];
      assert b in blocks;
      EntryPrecedes(b, pid, tm, entry, u);
      BlockInside(blocks, pid, tm, first, m, j, entry, u);
      AncestorTransitive(m, t, entry, u);
    }
  }

  /** The exit of block `k` and everything after the block. */
  ghost function From(blocks: seq<Block>, first: int, m: TaskMap, k: nat): set<int>
    requires k < |blocks|
  {
    set t | t in m && (t == Exit(blocks[k], FirstId(blocks, first, k)) || t >= FirstId(blocks, first, k + 1))
  }

  lemma FromIsClosed(blocks: seq<Block>, pid: int, tm: Timing, first: int, m: TaskMap, k: nat, t: int)
    requires Chained(blocks, pid, tm, first, m) && k < |blocks| && !Connected(blocks[k])
    requires t in From(blocks, first, m, k)
    ensures m[t].preds <= From(blocks, first, m, k)
  {
    if t == Exit(blocks[k], FirstId(blocks, first, k)) {
      ExitHasNoPreds(blocks, pid, tm, first, m, k);
    } else {
      var j := LaterBlock(blocks, pid, tm, first, m, k, t);
      LaterPreds(blocks, pid, tm, first, m, k, j, t);
    }
  }

  lemma ExitHasNoPreds(blocks: seq<Block>, pid: int, tm: Timing, first: int, m: TaskMap, k: nat)
    requires Chained(blocks, pid, tm, first, m) && k < |blocks| && !Connected(blocks[k])
    ensures var exit := Exit(blocks[k], FirstId(blocks, first, k)); exit in m && m[exit].preds == {}
  {
    var start := FirstId(blocks, first, k);
    ChainedAt(blocks, pid, tm, first, m, k, Exit(blocks[k], start));
    DisconnectedExit(blocks[k], pid, tm, start);
  }

  lemma LaterBlock(blocks: seq<Block>, pid: int, tm: Timing, first: int, m: TaskMap, k: nat, t: int) returns (j: nat)
    requires Chained(blocks, pid, tm, first, m) && k < |blocks| && t in m && t >= FirstId(blocks, first, k + 1)
    ensures k < j < |blocks| && t in Ids(blocks[j], FirstId(blocks, first, j))
  {
    j := BlockOf(blocks, first, |blocks|, t);
    if j < k { FirstIdsRise(blocks, first, j, k); }
  }

  lemma LaterPreds(blocks: seq<Block>, pid: int, tm: Timing, first: int, m: TaskMap, k: nat, j: nat, t: int)
    requires Chained(blocks, pid, tm, first, m) && k < j < |blocks| && t in Ids(blocks[j], FirstId(blocks, first, j))
    ensures t in m && m[t].preds <= From(blocks, first, m, k)
  {
    ChainedAt(blocks, pid, tm, first, m, j, t);
    forall x | x in m[t].preds ensures x in From(blocks, first, m, k) {
      PredOfLater(blocks, pid, tm, first, m, k, j, t, x);
    }
  }

  lemma LaterInFrom(blocks: seq<Block>, pid: int, tm: Timing, first: int, m: TaskMap, k: nat, j: nat, x: int)
    requires Chained(blocks, pid, tm, first, m) && k < j < |blocks| && x in Ids(blocks[j], FirstId(blocks, first, j))
    ensures x in From(blocks, first, m, k)
  {
    ChainedAt(blocks, pid, tm, first, m, j, x);
    if k + 1 < j { FirstIdsRise(blocks, first, k + 1, j); }
  }

  lemma PredOfLater(blocks: seq<Block>, pid: int, tm: Timing, first: int, m: TaskMap, k: nat, j: nat, t: int, x: int)
    requires Chained(blocks, pid, tm, first, m) && k < j < |blocks|
    requires t in Ids(blocks[j], FirstId(blocks, first, j)) && x in ProgramPreds(blocks, first, j, t)
    ensures x in From(blocks, first, m, k)
  {
    if x in PredsAt(blocks[j], FirstId(blocks, first, j), t) {
      LaterInFrom(blocks, pid, tm, first, m, k, j, x);
    } else {
      var before := FirstId(blocks, first, j - 1);
      assert x == Exit(blocks[j - 1], before);
      if k < j - 1 {
        LaterInFrom(blocks, pid, tm, first, m, k, j - 1, x);
      } else {
        ChainedAt(blocks, pid, tm, first, m, k, x);
      }
    }
  }

  /** A task from before the exit of a disconnected block does not precede it. */
  lemma NothingPrecedesFrom(blocks: seq<Block>, pid: int, tm: Timing, first: int, m: TaskMap, k: nat, t: int, u: int)
    requires Chained(blocks, pid, tm, first, m) && k < |blocks| && !Connected(blocks[k])
    requires u in From(blocks, first, m, k) && t !in From(blocks, first, m, k)
    ensures !Ancestor(m, t, u)
  {
    forall x | x in From(blocks, first, m, k) && x in m ensures m[x].preds <= From(blocks, first, m, k) {
      FromIsClosed(blocks, pid, tm, first, m, k, x);
    }
    if Ancestor(m, t, u) {
      ClosedUnderAncestor(m, From(blocks, first, m, k), t, u);
    }
  }

  ghost predicate InSequence(blocks: seq<Block>, first: int, m: TaskMap) {
    forall i, j, t, u ::
      (&& 0 <= i < j < |blocks|
       && t in Ids(blocks[i], FirstId(blocks, first, i)) && u in Ids(blocks[j], FirstId(blocks, first, j)))
      ==> Ancestor(m, t, u)
  }

  lemma DisconnectedBreaksSequence(blocks: seq<Block>, pid: int, tm: Timing, first: int, m: TaskMap, k: nat)
    requires Chained(blocks, pid, tm, first, m) && k < |blocks| && !Connected(blocks[k]) && |blocks| >= 2
    ensures !InSequence(blocks, first, m)
  {
    var start := FirstId(blocks, first, k);
    if k + 1 < |blocks| {
      var next := FirstId(blocks, first, k + 1);
      ChainedAt(blocks, pid, tm, first, m, k + 1, next);
      NothingPrecedesFrom(blocks, pid, tm, first, m, k, start, next);
      assert start in Ids(blocks[k], start) && next in Ids(blocks[k + 1], next);
    } else {
      var before, exit := FirstId(blocks, first, k - 1), Exit(blocks[k], start);
      FirstIdsRise(blocks, first, k - 1, k);
      ChainedAt(blocks, pid, tm, first, m, k, exit);
      NothingPrecedesFrom(blocks, pid, tm, first, m, k, before, exit);
      assert before in Ids(blocks[k - 1], before) && exit in Ids(blocks[k], start);
    }
  }

  /** Every task of an earlier block is an ancestor of every task of a later one exactly
      when each sequential request asks for at least one pair. */
  lemma InSequenceIffConnected(blocks: seq<Block>, pid: int, tm: Timing, first: int)
    requires ProgramGraph(blocks, pid, tm, first).Some?
    ensures InSequence(blocks, first, ProgramGraph(blocks, pid, tm, first).value.tasks) <==>
            |blocks| <= 1 || forall b :: b in blocks ==> Connected(b)
  {
    var m := ProgramGraph(blocks, pid, tm, first).value.tasks;
    ProgramGraphIsDag(blocks, pid, tm, first);
    if forall b :: b in blocks ==> Connected(b) {
      forall i, j, t, u | 0 <= i < j < |blocks| && t in Ids(blocks[i], FirstId(blocks, first, i))
                          && u in Ids(blocks[j], FirstId(blocks, first, j))
        ensures Ancestor(m, t, u)
      {
        EarlierPrecedesLater(blocks, pid, tm, first, m, i, j, t, u);
      }
    } else if |blocks| >= 2 {
      var b :| b in blocks && !Connected(b);
      var k :| 0 <= k < |blocks| && blocks[k] == b;
      DisconnectedBreaksSequence(blocks, pid, tm, first, m, k);
    }
  }
}
