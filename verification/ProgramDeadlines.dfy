/** Deadlines relative to blocks, as the builder of programs hands them to tasks
    (qoala/runtime/task.py:986-1065). */
module ProgramDeadlines {
  import opened Tasks
  import opened GraphOps
  import opened TaskGraphs
  import opened Programs
  import opened ProgramTheorems
  import opened GraphBuilders

  /** Block `j` is the last of the first `n` blocks with this name. */
  ghost predicate IsNamed(blocks: seq<Block>, n: nat, name: string, j: nat)
    requires n <= |blocks|
  {
    j < n && blocks[j].name == name && forall k :: j < k < n ==> blocks[k].name != name
  }

  ghost predicate HasName(blocks: seq<Block>, n: nat, name: string)
    requires n <= |blocks|
  {
    exists j: nat :: IsNamed(blocks, n, name, j)
  }

  ghost function ExitOf(blocks: seq<Block>, first: int, j: nat): int
    requires j < |blocks|
  {
    Exit(blocks[j], FirstId(blocks, first, j))
  }

  // ----- the dictionary of block names -----

  /** Each name stands for the exit task of the last block that has it. */
  ghost predicate NamesAre(blocks: seq<Block>, first: int, n: nat, names: map<string, int>)
    requires n <= |blocks|
  {
    && (forall name :: name in names ==> HasName(blocks, n, name))
    && (forall name, j: nat :: IsNamed(blocks, n, name, j) ==> name in names && names[name] == ExitOf(blocks, first, j))
  }

  lemma NamedInLonger(blocks: seq<Block>, n: nat, m: nat, name: string, j: nat)
    requires n < |blocks| && m == n + 1
    ensures IsNamed(blocks, m, name, j) <==> if blocks[n].name == name then j == n else IsNamed(blocks, n, name, j)
  {
  }

  lemma NamesAppend(blocks: seq<Block>, first: int, n: nat, m: nat, names: map<string, int>)
    requires n < |blocks| && m == n + 1 && NamesAre(blocks, first, n, names)
    ensures NamesAre(blocks, first, m, names[blocks[n].name := ExitOf(blocks, first, n)])
  {
    var names' := names[blocks[n].name := ExitOf(blocks, first, n)];
    forall name | name in names' ensures HasName(blocks, m, name) {
      if name == blocks[n].name {
        NamedInLonger(blocks, n, m, name, n);
      } else {
        var j: nat :| IsNamed(blocks, n, name, j);
        NamedInLonger(blocks, n, m, name, j);
      }
    }
    forall name, j: nat | IsNamed(blocks, m, name, j) ensures name in names' && names'[name] == ExitOf(blocks, first, j) {
      NamedInLonger(blocks, n, m, name, j);
    }
  }

  lemma PrefixBuilds(blocks: seq<Block>, pid: int, tm: Timing, first: int, n: nat, m: nat)
    requires n < |blocks| && m == n + 1 && BuildBlocks(blocks[..m], pid, tm, first).Some?
    ensures var before := BuildBlocks(blocks[..n], pid, tm, first);
            && before.Some? && before.value.counter == FirstId(blocks, first, n)
            && AddBlock(before.value, blocks[n], pid, tm) == BuildBlocks(blocks[..m], pid, tm, first)
  {
    assert blocks[..m][..n] == blocks[..n];
    BuildIsBuilt(blocks[..n], pid, tm, first);
    FirstIdOfPrefix(blocks, first, n, n);
  }

  lemma {:induction false} BuiltNames(blocks: seq<Block>, pid: int, tm: Timing, first: int, n: nat)
    requires n <= |blocks| && BuildBlocks(blocks[..n], pid, tm, first).Some?
    ensures NamesAre(blocks, first, n, BuildBlocks(blocks[..n], pid, tm, first).value.names)
  {
    if n > 0 {
      PrefixBuilds(blocks, pid, tm, first, n - 1, n);
      BuiltNames(blocks, pid, tm, first, n - 1);
      NamesAppend(blocks, first, n - 1, n, BuildBlocks(blocks[..n - 1], pid, tm, first).value.names);
    }
  }

  // ----- the deadlines of one block -----

  /** The last pair for key `x`. */
  ghost predicate IsLastFor(names: map<string, int>, deadlines: seq<(string, int)>, q: int, x: int) {
    && 0 <= q < |deadlines| && deadlines[q].0 in names && names[deadlines[q].0] == x
    && forall r :: q < r < |deadlines| && deadlines[r].0 in names ==> names[deadlines[r].0] != x
  }

  ghost predicate Resolves(names: map<string, int>, deadlines: seq<(string, int)>, rel: map<int, int>) {
    && (forall x :: x in rel ==> exists q :: IsLastFor(names, deadlines, q, x))
    && (forall q, x :: IsLastFor(names, deadlines, q, x) ==> x in rel && rel[x] == deadlines[q].1)
  }

  lemma LastOfLonger(names: map<string, int>, deadlines: seq<(string, int)>, q: int, x: int)
    requires deadlines != []
    ensures var n := |deadlines| - 1;
            IsLastFor(names, deadlines, q, x) <==>
              if deadlines[n].0 in names && names[deadlines[n].0] == x then q == n
              else IsLastFor(names, deadlines[..n], q, x)
  {
    var n := |deadlines| - 1;
    var front := deadlines[..n];
    if IsLastFor(names, front, q, x) && !(deadlines[n].0 in names && names[deadlines[n].0] == x) {
      forall r | q < r < |deadlines| && deadlines[r].0 in names ensures names[deadlines[r].0] != x {
        if r < n {
          assert front[r] == deadlines[r];
        }
      }
    }
  }

  lemma {:induction false} RelDeadlinesResolve(names: map<string, int>, deadlines: seq<(string, int)>)
    ensures RelDeadlines(names, deadlines).None? <==> exists q :: 0 <= q < |deadlines| && deadlines[q].0 !in names
    ensures RelDeadlines(names, deadlines).Some? ==> Resolves(names, deadlines, RelDeadlines(names, deadlines).value)
  {
    if deadlines != [] {
      var n := |deadlines| - 1;
      var front := deadlines[..n];
      RelDeadlinesResolve(names, front);
      if q :| 0 <= q < |front| && front[q].0 !in names {
        assert deadlines[q].0 !in names;
      }
      if q :| 0 <= q < n && deadlines[q].0 !in names {
        assert front[q].0 !in names;
      }
      if RelDeadlines(names, deadlines).Some? {
        ResolvesAppend(names, deadlines, RelDeadlines(names, front).value);
      }
    }
  }

  lemma ResolvesAppend(names: map<string, int>, deadlines: seq<(string, int)>, rel: map<int, int>)
    requires deadlines != [] && deadlines[|deadlines| - 1].0 in names
    requires Resolves(names, deadlines[..|deadlines| - 1], rel)
    ensures var last := deadlines[|deadlines| - 1]; Resolves(names, deadlines, rel[names[last.0] := last.1])
  {
    var n := |deadlines| - 1;
    var rel' := rel[names[deadlines[n].0] := deadlines[n].1];
    forall x | x in rel' ensures exists q :: IsLastFor(names, deadlines, q, x) {
      if x == names[deadlines[n].0] {
        LastOfLonger(names, deadlines, n, x);
      } else {
        var q :| IsLastFor(names, deadlines[..n], q, x);
        LastOfLonger(names, deadlines, q, x);
      }
    }
    forall q, x | IsLastFor(names, deadlines, q, x) ensures x in rel' && rel'[x] == deadlines[q].1 {
      LastOfLonger(names, deadlines, q, x);
    }
  }

  // ----- over blocks -----

  /** How many blocks the names in the deadlines of block `i` may refer to: a classical
      block may also name itself. */
  ghost function Horizon(blocks: seq<Block>, i: nat): (r: nat)
    requires i < |blocks|
    ensures r <= |blocks|
  {
    if blocks[i].kind.CL? then i + 1 else i
  }

  /** Receive and request blocks ignore their deadlines. */
  predicate HasDeadlines(b: Block) {
    b.kind.CL? || b.kind.QL?
  }

  /** Pair `q` of the deadlines of block `i` is the last for its name, and the name stands
      for block `j`. */
  ghost predicate NamesBlock(blocks: seq<Block>, i: nat, q: int, j: nat)
    requires i < |blocks|
  {
    var d := blocks[i].deadlines;
    && 0 <= q < |d| && IsNamed(blocks, Horizon(blocks, i), d[q].0, j)
    && forall r :: q < r < |d| ==> d[r].0 != d[q].0
  }

  /** The relative deadlines of block `i`: one for each block it names, on the exit task of
      that block. */
  ghost predicate AreDeadlines(blocks: seq<Block>, first: int, i: nat, rel: map<int, int>)
    requires i < |blocks|
  {
    && (forall x :: x in rel ==> exists q, j: nat :: NamesBlock(blocks, i, q, j) && x == ExitOf(blocks, first, j))
    && (forall q, j: nat :: NamesBlock(blocks, i, q, j) ==>
          ExitOf(blocks, first, j) in rel && rel[ExitOf(blocks, first, j)] == blocks[i].deadlines[q].1)
  }

  lemma ExitsDiffer(blocks: seq<Block>, first: int, i: nat, j: nat)
    requires i < |blocks| && j < |blocks| && ExitOf(blocks, first, i) == ExitOf(blocks, first, j)
    ensures i == j
  {
    if i < j {
      FirstIdsRise(blocks, first, i, j);
    } else if j < i {
      FirstIdsRise(blocks, first, j, i);
    }
  }

  lemma NamedBlocksDiffer(blocks: seq<Block>, first: int, n: nat, names: map<string, int>, a: string, b: string)
    requires n <= |blocks| && NamesAre(blocks, first, n, names) && a in names && b in names && names[a] == names[b]
    ensures a == b
  {
    var i: nat :| IsNamed(blocks, n, a, i);
    var j: nat :| IsNamed(blocks, n, b, j);
    ExitsDiffer(blocks, first, i, j);
  }

  lemma ResolvedNames(blocks: seq<Block>, first: int, i: nat, names: map<string, int>, rel: map<int, int>)
    requires i < |blocks| && NamesAre(blocks, first, Horizon(blocks, i), names)
    requires Resolves(names, blocks[i].deadlines, rel)
    ensures AreDeadlines(blocks, first, i, rel)
  {
    var d, n := blocks[i].deadlines, Horizon(blocks, i);
    forall x | x in rel ensures exists q, j: nat :: NamesBlock(blocks, i, q, j) && x == ExitOf(blocks, first, j) {
      var q :| IsLastFor(names, d, q, x);
      var j: nat :| IsNamed(blocks, n, d[q].0, j);
      assert NamesBlock(blocks, i, q, j);
    }
    forall q, j: nat | NamesBlock(blocks, i, q, j)
      ensures ExitOf(blocks, first, j) in rel && rel[ExitOf(blocks, first, j)] == d[q].1
    {
      var x := ExitOf(blocks, first, j);
      assert d[q].0 in names && names[d[q].0] == x;
      forall r | q < r < |d| && d[r].0 in names ensures names[d[r].0] != x {
        if names[d[r].0] == x {
          NamedBlocksDiffer(blocks, first, n, names, d[r].0, d[q].0);
        }
      }
      assert IsLastFor(names, d, q, x);
    }
  }

  /** A deadline of block `i` names a block that is not there yet. */
  ghost predicate NamesUnknown(blocks: seq<Block>, i: nat)
    requires i < |blocks|
  {
    && HasDeadlines(blocks[i])
    && exists q :: 0 <= q < |blocks[i].deadlines| && !HasName(blocks, Horizon(blocks, i), blocks[i].deadlines[q].0)
  }

  lemma NamedIffIn(blocks: seq<Block>, first: int, n: nat, names: map<string, int>, name: string)
    requires n <= |blocks| && NamesAre(blocks, first, n, names)
    ensures name in names <==> HasName(blocks, n, name)
  {
  }

  lemma ResolvesIff(blocks: seq<Block>, first: int, i: nat, names: map<string, int>)
    requires i < |blocks| && HasDeadlines(blocks[i]) && NamesAre(blocks, first, Horizon(blocks, i), names)
    ensures RelDeadlines(names, blocks[i].deadlines).None? <==> NamesUnknown(blocks, i)
    ensures RelDeadlines(names, blocks[i].deadlines).Some? ==>
              AreDeadlines(blocks, first, i, RelDeadlines(names, blocks[i].deadlines).value)
  {
    var d := blocks[i].deadlines;
    RelDeadlinesResolve(names, d);
    forall q | 0 <= q < |d| ensures d[q].0 in names <==> HasName(blocks, Horizon(blocks, i), d[q].0) {
      NamedIffIn(blocks, first, Horizon(blocks, i), names, d[q].0);
    }
    if RelDeadlines(names, d).Some? {
      ResolvedNames(blocks, first, i, names, RelDeadlines(names, d).value);
    }
  }

  /** What the entry task of block `i` gets. */
  ghost predicate EntryGets(blocks: seq<Block>, first: int, i: nat, rel: map<int, int>)
    requires i < |blocks|
  {
    if HasDeadlines(blocks[i]) then AreDeadlines(blocks, first, i, rel) else rel == map[]
  }

  lemma BlockResolves(blocks: seq<Block>, first: int, i: nat, p: Progress)
    requires i < |blocks| && NamesAre(blocks, first, i, p.names) && p.counter == FirstId(blocks, first, i)
    ensures DeadlinesOf(p, blocks[i]).None? <==> NamesUnknown(blocks, i)
    ensures DeadlinesOf(p, blocks[i]).Some? ==> EntryGets(blocks, first, i, DeadlinesOf(p, blocks[i]).value)
  {
    if blocks[i].kind.CL? {
      NamesAppend(blocks, first, i, i + 1, p.names);
      assert ExitOf(blocks, first, i) == p.counter;
      ResolvesIff(blocks, first, i, p.names[blocks[i].name := p.counter]);
    } else if blocks[i].kind.QL? {
      ResolvesIff(blocks, first, i, p.names);
    }
  }

  lemma NextFailsIff(blocks: seq<Block>, pid: int, tm: Timing, first: int, n: nat, m: nat)
    requires n < |blocks| && m == n + 1 && BuildBlocks(blocks[..n], pid, tm, first).Some?
    ensures BuildBlocks(blocks[..m], pid, tm, first).None? <==> NamesUnknown(blocks, n)
  {
    assert blocks[..m][..n] == blocks[..n];
    BuildIsBuilt(blocks[..n], pid, tm, first);
    FirstIdOfPrefix(blocks, first, n, n);
    BuiltNames(blocks, pid, tm, first, n);
    BlockResolves(blocks, first, n, BuildBlocks(blocks[..n], pid, tm, first).value);
  }

  ghost predicate FailsWithin(blocks: seq<Block>, pid: int, tm: Timing, first: int, n: nat)
    requires n <= |blocks|
  {
    BuildBlocks(blocks[..n], pid, tm, first).None?
  }

  ghost predicate UnknownWithin(blocks: seq<Block>, n: nat)
    requires n <= |blocks|
  {
    exists i: nat :: i < n && NamesUnknown(blocks, i)
  }

  lemma FailureStaysFailure(blocks: seq<Block>, pid: int, tm: Timing, first: int, n: nat, m: nat)
    requires n < |blocks| && m == n + 1 && FailsWithin(blocks, pid, tm, first, n)
    ensures FailsWithin(blocks, pid, tm, first, m)
  {
    assert blocks[..m][..n] == blocks[..n];
  }

  lemma UnknownInLonger(blocks: seq<Block>, n: nat, m: nat)
    requires n < |blocks| && m == n + 1
    ensures UnknownWithin(blocks, m) <==> UnknownWithin(blocks, n) || NamesUnknown(blocks, n)
  {
  }

  lemma LongerFailsIff(blocks: seq<Block>, pid: int, tm: Timing, first: int, n: nat, m: nat)
    requires n < |blocks| && m == n + 1
    ensures FailsWithin(blocks, pid, tm, first, m) <==>
              FailsWithin(blocks, pid, tm, first, n) || NamesUnknown(blocks, n)
  {
    if FailsWithin(blocks, pid, tm, first, n) {
      FailureStaysFailure(blocks, pid, tm, first, n, m);
    } else {
      NextFailsIff(blocks, pid, tm, first, n, m);
    }
  }

  lemma NothingFails(blocks: seq<Block>, pid: int, tm: Timing, first: int)
    ensures !FailsWithin(blocks, pid, tm, first, 0) && !UnknownWithin(blocks, 0)
  {
    assert blocks[..0] == [];
  }

  lemma {:induction false} PrefixFailsIff(blocks: seq<Block>, pid: int, tm: Timing, first: int, n: nat)
    requires n <= |blocks|
    ensures FailsWithin(blocks, pid, tm, first, n) <==> UnknownWithin(blocks, n)
  {
    if n == 0 {
      NothingFails(blocks, pid, tm, first);
    } else {
      PrefixFailsIff(blocks, pid, tm, first, n - 1);
      LongerFailsIff(blocks, pid, tm, first, n - 1, n);
      UnknownInLonger(blocks, n - 1, n);
    }
  }

  /** The builder of programs fails exactly if a classical block or a subroutine call has a
      deadline that names a block which is not there yet. */
  lemma BuildFailsIffNameUnknown(blocks: seq<Block>, pid: int, tm: Timing, first: int)
    ensures ProgramGraph(blocks, pid, tm, first).None? <==> exists i: nat :: i < |blocks| && NamesUnknown(blocks, i)
  {
    PrefixFailsIff(blocks, pid, tm, first, |blocks|);
    assert blocks[..|blocks|] == blocks;
  }

  // ----- the tasks of a program -----

  /** A task of block `i` as the block builder makes it, but for its precedences and for the
      deadlines of the entry. */
  ghost predicate IsInfo(blocks: seq<Block>, pid: int, tm: Timing, first: int, i: nat, t: int, info: TaskInfo)
    requires i < |blocks|
  {
    var start := FirstId(blocks, first, i);
    && t in BlockGraph(blocks[i], pid, tm, start).tasks
    && info.(preds := {}, succs := {}, relDeadlines := map[]) ==
       BlockGraph(blocks[i], pid, tm, start).tasks[t].(preds := {})
    && if t == start then EntryGets(blocks, first, i, info.relDeadlines) else info.relDeadlines == map[]
  }

  lemma PlacedInfo(b: Block, pid: int, tm: Timing, first: int, prev: Option<int>, rel: map<int, int>, t: int)
    requires t in Ids(b, first)
    ensures var info, h := Placed(b, pid, tm, first, prev, rel).tasks[t], BlockGraph(b, pid, tm, first).tasks[t];
            && info.(preds := {}, succs := {}, relDeadlines := map[]) == h.(preds := {})
            && info.relDeadlines == if t == first then rel else map[]
  {
  }

  /** The tasks after the first `n` blocks. */
  ghost function TasksAfter(blocks: seq<Block>, pid: int, tm: Timing, first: int, n: nat): TaskMap
    requires n <= |blocks|
  {
    var built := BuildBlocks(blocks[..n], pid, tm, first);
    if built.Some? then built.value.graph.tasks else map[]
  }

  lemma PrefixSucceeds(blocks: seq<Block>, pid: int, tm: Timing, first: int, n: nat)
    requires BuildBlocks(blocks, pid, tm, first).Some? && n <= |blocks|
    ensures BuildBlocks(blocks[..n], pid, tm, first).Some?
  {
    if BuildBlocks(blocks[..n], pid, tm, first).None? {
      FailureStays(blocks, pid, tm, first, n);
    }
  }

  lemma AddedBlockInfo(blocks: seq<Block>, pid: int, tm: Timing, first: int, i: nat, t: int, p: Progress, q: Progress)
    requires i < |blocks| && AddBlock(p, blocks[i], pid, tm) == Some(q) && p.counter == FirstId(blocks, first, i)
    requires NamesAre(blocks, first, i, p.names) && t in Ids(blocks[i], FirstId(blocks, first, i))
    ensures t in q.graph.tasks && IsInfo(blocks, pid, tm, first, i, t, q.graph.tasks[t])
  {
    BlockResolves(blocks, first, i, p);
    PlacedInfo(blocks[i], pid, tm, p.counter, p.prev, DeadlinesOf(p, blocks[i]).value, t);
  }

  lemma NewBlockInfo(blocks: seq<Block>, pid: int, tm: Timing, first: int, i: nat, n: nat, t: int)
    returns (info: TaskInfo)
    requires i < |blocks| && n == i + 1 && BuildBlocks(blocks[..n], pid, tm, first).Some?
    requires t in Ids(blocks[i], FirstId(blocks, first, i))
    ensures IsInfo(blocks, pid, tm, first, i, t, info)
    ensures t in TasksAfter(blocks, pid, tm, first, n) && TasksAfter(blocks, pid, tm, first, n)[t] == info
  {
    PrefixBuilds(blocks, pid, tm, first, i, n);
    BuiltNames(blocks, pid, tm, first, i);
    var p, q := BuildBlocks(blocks[..i], pid, tm, first).value, BuildBlocks(blocks[..n], pid, tm, first).value;
    AddedBlockInfo(blocks, pid, tm, first, i, t, p, q);
    info := q.graph.tasks[t];
  }

  ghost predicate Kept(m: TaskMap, m': TaskMap, t: int) {
    t in m ==> t in m' && m'[t] == m[t]
  }

  lemma OldBlockStays(blocks: seq<Block>, pid: int, tm: Timing, first: int, i: nat, n: nat, t: int, p: Progress,
                      q: Progress)
    requires i < n < |blocks| && AddBlock(p, blocks[n], pid, tm) == Some(q) && p.counter == FirstId(blocks, first, n)
    requires t in Ids(blocks[i], FirstId(blocks, first, i))
    ensures Kept(p.graph.tasks, q.graph.tasks, t)
  {
    FirstIdsRise(blocks, first, i, n);
    if t in p.graph.tasks {
      OldTaskKept(p, blocks[n], pid, tm, q, t);
    }
  }

  lemma NextBlockKeeps(blocks: seq<Block>, pid: int, tm: Timing, first: int, i: nat, n: nat, m: nat, t: int)
    requires i < n < |blocks| && m == n + 1 && BuildBlocks(blocks[..m], pid, tm, first).Some?
    requires t in Ids(blocks[i], FirstId(blocks, first, i))
    ensures Kept(TasksAfter(blocks, pid, tm, first, n), TasksAfter(blocks, pid, tm, first, m), t)
  {
    PrefixBuilds(blocks, pid, tm, first, n, m);
    OldBlockStays(blocks, pid, tm, first, i, n, t, BuildBlocks(blocks[..n], pid, tm, first).value,
                  BuildBlocks(blocks[..m], pid, tm, first).value);
  }

  lemma {:induction false} KeptAlong(ms: seq<TaskMap>, i: nat, n: nat, t: int)
    requires i <= n < |ms|
    requires forall k, l {:trigger ms[k], ms[l]} :: i <= k && l == k + 1 && l < |ms| ==> Kept(ms[k], ms[l], t)
    ensures Kept(ms[i], ms[n], t)
    decreases n
  {
    if i < n {
      KeptAlong(ms, i, n - 1, t);
    }
  }

  lemma BlockTaskStays(blocks: seq<Block>, pid: int, tm: Timing, first: int, i: nat, next: nat, n: nat, t: int)
    requires BuildBlocks(blocks, pid, tm, first).Some? && i < next <= n <= |blocks| && next == i + 1
    requires t in Ids(blocks[i], FirstId(blocks, first, i))
    ensures Kept(TasksAfter(blocks, pid, tm, first, next), TasksAfter(blocks, pid, tm, first, n), t)
  {
    var ms := seq(|blocks| + 1, k requires 0 <= k <= |blocks| => TasksAfter(blocks, pid, tm, first, k));
    forall k, l | next <= k && l == k + 1 && l < |ms| ensures Kept(ms[k], ms[l], t) {
      PrefixSucceeds(blocks, pid, tm, first, l);
      NextBlockKeeps(blocks, pid, tm, first, i, k, l, t);
    }
    KeptAlong(ms, next, n, t);
  }

  lemma LinkedKeepsInfo(blocks: seq<Block>, pid: int, tm: Timing, first: int, i: nat, t: int, info: TaskInfo,
                        info': TaskInfo)
    requires i < |blocks| && IsInfo(blocks, pid, tm, first, i, t, info) && info' == info.(succs := info'.succs)
    ensures IsInfo(blocks, pid, tm, first, i, t, info')
  {
  }

  lemma BuiltInfo(blocks: seq<Block>, pid: int, tm: Timing, first: int, i: nat, t: int) returns (info: TaskInfo)
    requires ProgramGraph(blocks, pid, tm, first).Some? && i < |blocks|
    requires t in Ids(blocks[i], FirstId(blocks, first, i))
    ensures IsInfo(blocks, pid, tm, first, i, t, info)
    ensures var m := ProgramGraph(blocks, pid, tm, first).value.tasks;
            t in m && m[t] == info.(succs := m[t].succs)
  {
    var next, all := i + 1, |blocks|;
    assert blocks[..all] == blocks;
    PrefixSucceeds(blocks, pid, tm, first, next);
    info := NewBlockInfo(blocks, pid, tm, first, i, next, t);
    BlockTaskStays(blocks, pid, tm, first, i, next, all, t);
  }

  /** The tasks of a built program are those of its blocks, and the deadlines of a block are
      relative deadlines of its first task on the exit tasks of the blocks they name: the
      latest before it, or itself for a classical block. */
  lemma ProgramTasksAreBlockTasks(blocks: seq<Block>, pid: int, tm: Timing, first: int, i: nat, t: int)
    requires ProgramGraph(blocks, pid, tm, first).Some? && i < |blocks|
    requires t in BlockGraph(blocks[i], pid, tm, FirstId(blocks, first, i)).tasks
    ensures var m := ProgramGraph(blocks, pid, tm, first).value.tasks;
            t in m && IsInfo(blocks, pid, tm, first, i, t, m[t])
  {
    var info := BuiltInfo(blocks, pid, tm, first, i, t);
    LinkedKeepsInfo(blocks, pid, tm, first, i, t, info, ProgramGraph(blocks, pid, tm, first).value.tasks[t]);
  }
}
