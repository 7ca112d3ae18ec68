/** Linear task graphs (qoala/runtime/task.py:505-522, 685-702). */
module Linearizing {
  import opened Tasks
  import opened Reachability
  import opened GraphOps
  import opened TaskGraphs

  // ----- which graphs are linear -----

  /** The graph is the path `c`: its tasks are those of `c`, each once, and each task has the
      one before it as its only predecessor. Nothing on another core precedes the first. */
  ghost predicate IsSinglePath(g: Graph, c: seq<int>) {
    && NoDup(c) && Elements(c) == g.tasks.Keys
    && (c != [] ==> g.tasks[First(c)].preds == {} && g.tasks[First(c)].extPreds == {})
    && (forall i, j {:trigger c[i], c[j]} :: 0 <= i && j == i + 1 && j < |c| ==> g.tasks[c[j]].preds == {c[i]})
  }

  function First(c: seq<int>): (r: int)
    requires c != []
    ensures r in Elements(c)
  {
    c[0]
  }

  function Last(c: seq<int>): (r: int)
    requires c != []
    ensures r in Elements(c)
  {
    c[|c| - 1]
  }

  lemma {:induction false} NoDupSize(s: seq<int>)
    requires NoDup(s)
    ensures |Elements(s)| == |s|
  {
    if s != [] {
      var front := s[..|s| - 1];
      NoDupSize(front);
      assert s == front + [Last(s)];
      assert Elements(s) == Elements(front) + {Last(s)};
    }
  }

  lemma SubsetOfSameSize(a: set<int>, b: set<int>)
    requires a <= b && |a| == |b|
    ensures a == b
  {
    assert |b - a| == |b| - |a|;
  }

  // ----- a chain that can be followed is the path -----

  lemma ChainEdge(g: Graph, c: seq<int>, i: nat)
    requires Linked(g.tasks) && Follows(g, c) && i + 1 < |c|
    ensures Edge(g.tasks, c[i], c[i + 1])
  {
    var j := i + 1;
    assert OnlyNext(g, c[i], c[j]);
    assert c[j] in g.tasks[c[i]].succs;
  }

  lemma ChainIsPath(g: Graph, c: seq<int>)
    requires Ordered(g) && Linked(g.tasks) && Follows(g, c) && c != []
    ensures IsPath(g.tasks, c)
  {
    assert c[0] in Roots(g, false);
    forall i | 0 <= i < |c| ensures c[i] in g.tasks {
      if i > 0 {
        ChainEdge(g, c, i - 1);
      }
    }
    forall i, j {:trigger c[i], c[j]} | 0 <= i && j == i + 1 && j < |c| ensures Edge(g.tasks, c[i], c[j]) {
      ChainEdge(g, c, i);
    }
  }

  lemma PathRises(m: TaskMap, p: seq<int>, i: nat, j: nat)
    requires IsPath(m, p) && i < j < |p|
    ensures Ancestor(m, p[i], p[j])
  {
    SubPath(m, p, i, j + 1);
    assert PathFromTo(m, p[i..j + 1], p[i], p[j]);
  }

  lemma PathHasNoDup(m: TaskMap, p: seq<int>)
    requires Acyclic(m) && IsPath(m, p)
    ensures NoDup(p)
  {
    forall i, j | 0 <= i < j < |p| ensures p[i] != p[j] {
      PathRises(m, p, i, j);
    }
  }

  /** A path never turns back. */
  lemma NoEdgeBack(m: TaskMap, p: seq<int>, i: nat, j: nat)
    requires Acyclic(m) && IsPath(m, p) && i <= j < |p|
    ensures !Edge(m, p[j], p[i])
  {
    if Edge(m, p[j], p[i]) {
      EdgePath(m, p[j], p[i]);
      if i < j {
        PathRises(m, p, i, j);
        AncestorTransitive(m, p[i], p[j], p[i]);
      }
    }
  }

  lemma ChainCoversAll(g: Graph, c: seq<int>)
    requires Ordered(g) && Follows(g, c) && NoDup(c) && Elements(c) <= g.tasks.Keys
    ensures Elements(c) == g.tasks.Keys
  {
    NoDupSize(c);
    NoDupSize(g.order);
    SubsetOfSameSize(Elements(c), g.tasks.Keys);
  }

  lemma OnlyTheOneBefore(g: Graph, c: seq<int>, j: nat, x: int)
    requires Ordered(g) && Linked(g.tasks) && Acyclic(g.tasks) && Follows(g, c) && IsPath(g.tasks, c) && NoDup(c)
    requires Elements(c) == g.tasks.Keys && 0 < j < |c| && x in g.tasks[c[j]].preds
    ensures x == c[j - 1]
  {
    assert x in Elements(c);
    var k :| 0 <= k < |c| && c[k] == x;
    if j <= k {
      NoEdgeBack(g.tasks, c, j, k);
    } else {
      var l := k + 1;
      assert OnlyNext(g, c[k], c[l]);
      assert c[j] in g.tasks[c[k]].succs;
    }
  }

  lemma PredsOnChain(g: Graph, c: seq<int>, j: nat)
    requires Ordered(g) && Linked(g.tasks) && Acyclic(g.tasks) && Follows(g, c) && IsPath(g.tasks, c) && NoDup(c)
    requires Elements(c) == g.tasks.Keys && 0 < j < |c|
    ensures g.tasks[c[j]].preds == {c[j - 1]}
  {
    ChainEdge(g, c, j - 1);
    forall x | x in g.tasks[c[j]].preds ensures x == c[j - 1] {
      OnlyTheOneBefore(g, c, j, x);
    }
  }

  lemma FollowedIsPath(g: Graph, c: seq<int>)
    requires Ordered(g) && Linked(g.tasks) && Acyclic(g.tasks) && Follows(g, c)
    ensures IsSinglePath(g, c)
  {
    if c == [] {
      assert g.order == [];
    } else {
      ChainIsPath(g, c);
      PathHasNoDup(g.tasks, c);
      ChainCoversAll(g, c);
      assert c[0] in Roots(g, false);
      forall i, j {:trigger c[i], c[j]} | 0 <= i && j == i + 1 && j < |c| ensures g.tasks[c[j]].preds == {c[i]} {
        PredsOnChain(g, c, j);
      }
    }
  }

  // ----- the path can be followed -----

  lemma {:induction false} PickOne(s: seq<int>, x: int)
    requires NoDup(s) && x in s
    ensures Pick(s, {x}) == [x]
  {
    if s[0] == x {
      assert x !in s[1..];
      PickNone(s[1..], x);
    } else {
      PickOne(s[1..], x);
    }
  }

  lemma {:induction false} PickNone(s: seq<int>, x: int)
    requires x !in s
    ensures Pick(s, {x}) == []
  {
    if s != [] {
      assert s[0] in s;
      PickNone(s[1..], x);
    }
  }

  lemma PredsOnPath(g: Graph, c: seq<int>, j: nat)
    requires IsSinglePath(g, c) && j < |c|
    ensures c[j] in g.tasks && g.tasks[c[j]].preds == if j == 0 then {} else {c[j - 1]}
  {
    assert c[j] in Elements(c);
    if j > 0 {
      var i := j - 1;
      assert g.tasks[c[j]].preds == {c[i]};
    }
  }

  lemma PathRoot(g: Graph, c: seq<int>)
    requires Ordered(g) && IsSinglePath(g, c) && c != []
    ensures Roots(g, false) == [c[0]]
  {
    forall t | t in RootSet(g.tasks, false) ensures t == c[0] {
      assert t in Elements(c);
      var j :| 0 <= j < |c| && c[j] == t;
      PredsOnPath(g, c, j);
    }
    assert RootSet(g.tasks, false) == {c[0]};
    assert c[0] in Elements(g.order);
    PickOne(g.order, c[0]);
  }

  lemma PathSuccessor(g: Graph, c: seq<int>, i: nat)
    requires Linked(g.tasks) && IsSinglePath(g, c) && i + 1 < |c|
    ensures c[i] in g.tasks && g.tasks[c[i]].succs == {c[i + 1]}
  {
    assert c[i] in Elements(c);
    forall t | t in g.tasks && c[i] in g.tasks[t].preds ensures t == c[i + 1] {
      assert t in Elements(c);
      var l :| 0 <= l < |c| && c[l] == t;
      PredsOnPath(g, c, l);
    }
    var j := i + 1;
    assert g.tasks[c[j]].preds == {c[i]};
    assert c[j] in Elements(c);
  }

  lemma PathIsFollowed(g: Graph, c: seq<int>)
    requires Ordered(g) && Linked(g.tasks) && IsSinglePath(g, c)
    ensures Follows(g, c)
  {
    NoDupSize(c);
    NoDupSize(g.order);
    if c != [] {
      PathRoot(g, c);
    }
    forall i, j {:trigger c[i], c[j]} | 0 <= i && j == i + 1 && j < |c| ensures OnlyNext(g, c[i], c[j]) {
      PathSuccessor(g, c, i);
    }
  }

  /** `linearize` succeeds exactly on the graphs that are a single path, and returns it. */
  lemma LinearIffSinglePath(g: Graph, c: seq<int>)
    requires Ordered(g) && Linked(g.tasks) && Acyclic(g.tasks)
    ensures Follows(g, c) <==> IsSinglePath(g, c)
  {
    if Follows(g, c) {
      FollowedIsPath(g, c);
    }
    if IsSinglePath(g, c) {
      PathIsFollowed(g, c);
    }
  }

  // ----- one path after the other -----

  /** The graphs one after the other, without precedences between them. */
  function MergeAll(gs: seq<Graph>): Graph {
    if gs == [] then EmptyGraph else Updated(MergeAll(gs[..|gs| - 1]), gs[|gs| - 1])
  }

  /** The first `n` chains, each tied to the one before. */
  function Tied(g: Graph, chains: seq<seq<int>>, n: nat): (r: Graph)
    requires n > 1 ==> n <= |chains| && forall k :: 0 <= k < n ==> chains[k] != [] && chains[k][0] in g.tasks
    ensures r.tasks.Keys == g.tasks.Keys && r.order == g.order
  {
    if n <= 1 then g
    else Preceded(Tied(g, chains, n - 1), chains[n - 1][0], Last(chains[n - 2]))
  }

  function Flat(chains: seq<seq<int>>): seq<int> {
    if chains == [] then [] else Flat(chains[..|chains| - 1]) + chains[|chains| - 1]
  }

  /** The graphs have no tasks in common. */
  ghost predicate Apart(gs: seq<Graph>) {
    forall i, j :: 0 <= i < j < |gs| ==> gs[i].tasks.Keys !! gs[j].tasks.Keys
  }

  ghost predicate ArePaths(gs: seq<Graph>, chains: seq<seq<int>>) {
    && |gs| == |chains|
    && forall k :: 0 <= k < |gs| ==> Ordered(gs[k]) && Linked(gs[k].tasks) && chains[k] != [] && IsSinglePath(gs[k], chains[k])
  }

  /** Two paths, the second behind the first. */
  lemma JoinedIsPath(g: Graph, h: Graph, c: seq<int>, d: seq<int>)
    requires IsSinglePath(g, c) && IsSinglePath(h, d) && c != [] && d != [] && g.tasks.Keys !! h.tasks.Keys
    ensures d[0] in Merge(g, h).tasks && IsSinglePath(Preceded(Merge(g, h), d[0], Last(c)), c + d)
  {
    var m, e := Merge(g, h), c + d;
    assert First(d) in h.tasks;
    JoinedHasNoDup(c, d, g.tasks.Keys, h.tasks.Keys);
    var r := Preceded(m, d[0], Last(c));
    assert First(e) == First(c) && First(c) in g.tasks;
    forall i, j {:trigger e[i], e[j]} | 0 <= i && j == i + 1 && j < |e|
      ensures e[j] in r.tasks && r.tasks[e[j]].preds == {e[i]}
    {
      JoinedPreds(g, h, c, d, j);
    }
  }

  lemma JoinedPreds(g: Graph, h: Graph, c: seq<int>, d: seq<int>, j: nat)
    requires IsSinglePath(g, c) && IsSinglePath(h, d) && c != [] && d != [] && g.tasks.Keys !! h.tasks.Keys
    requires 0 < j < |c + d| && d[0] in Merge(g, h).tasks
    ensures (c + d)[j] in g.tasks.Keys + h.tasks.Keys
    ensures Preceded(Merge(g, h), d[0], Last(c)).tasks[(c + d)[j]].preds == {(c + d)[j - 1]}
  {
    PredsOnPath(h, d, 0);
    if j < |c| {
      PredsOnPath(g, c, j);
    } else {
      PredsOnPath(h, d, j - |c|);
    }
  }

  lemma JoinedHasNoDup(c: seq<int>, d: seq<int>, a: set<int>, b: set<int>)
    requires NoDup(c) && NoDup(d) && Elements(c) == a && Elements(d) == b && a !! b
    ensures NoDup(c + d) && Elements(c + d) == a + b
  {
    var e := c + d;
    forall i, j | 0 <= i < j < |e| ensures e[i] != e[j] {
      if i < |c| <= j {
        assert e[i] in Elements(c) && e[j] in Elements(d);
      }
    }
  }

  /** Tying tasks of `g` together does not depend on what else there is. */
  lemma {:induction false} TiedMerge(g: Graph, h: Graph, chains: seq<seq<int>>, n: nat)
    requires n <= |chains| && (forall k :: 0 <= k < n ==> chains[k] != [] && chains[k][0] in g.tasks)
    requires g.tasks.Keys !! h.tasks.Keys
    ensures Tied(Merge(g, h), chains, n) == Merge(Tied(g, chains, n), h)
  {
    if n > 1 {
      TiedMerge(g, h, chains, n - 1);
      PrecededMerge(Tied(g, chains, n - 1), h, chains[n - 1][0], Last(chains[n - 2]));
    }
  }

  lemma PrecededMerge(g: Graph, h: Graph, t: int, p: int)
    requires t in g.tasks && g.tasks.Keys !! h.tasks.Keys
    ensures Preceded(Merge(g, h), t, p) == Merge(Preceded(g, t, p), h)
  {
    assert Preceded(Merge(g, h), t, p).tasks == Merge(Preceded(g, t, p), h).tasks;
  }

  lemma {:induction false} MergedKeys(gs: seq<Graph>, k: nat)
    requires k < |gs|
    ensures gs[k].tasks.Keys <= MergeAll(gs).tasks.Keys
  {
    if k < |gs| - 1 {
      MergedKeys(gs[..|gs| - 1], k);
    }
  }

  lemma {:induction false} MergedIsApart(gs: seq<Graph>, h: Graph)
    requires forall k :: 0 <= k < |gs| ==> gs[k].tasks.Keys !! h.tasks.Keys
    ensures MergeAll(gs).tasks.Keys !! h.tasks.Keys
  {
    if gs != [] {
      MergedIsApart(gs[..|gs| - 1], h);
    }
  }

  /** The first `n` of the graphs, merged and tied. */
  lemma {:induction false} TiedIsPath(gs: seq<Graph>, chains: seq<seq<int>>, n: nat)
    requires ArePaths(gs, chains) && Apart(gs) && 0 < n <= |gs|
    ensures forall k :: 0 <= k < n ==> chains[k] != [] && chains[k][0] in MergeAll(gs[..n]).tasks
    ensures IsSinglePath(Tied(MergeAll(gs[..n]), chains, n), Flat(chains[..n]))
    decreases n
  {
    var h, d := gs[n - 1], chains[n - 1];
    HeadsAreMerged(gs, chains, n);
    if n == 1 {
      OneMerged(gs, chains);
    } else {
      TiedIsPath(gs, chains, n - 1);
      HeadsAreMerged(gs, chains, n - 1);
      NextMerged(gs, n);
      var before := Tied(MergeAll(gs[..n - 1]), chains, n - 1);
      TiedMerge(MergeAll(gs[..n - 1]), h, chains, n - 1);
      FlatNext(chains, n);
      LastOfFlat(chains, n - 1);
      JoinedIsPath(before, h, Flat(chains[..n - 1]), d);
    }
  }

  lemma HeadsAreMerged(gs: seq<Graph>, chains: seq<seq<int>>, n: nat)
    requires ArePaths(gs, chains) && n <= |gs|
    ensures forall k :: 0 <= k < n ==> chains[k] != [] && chains[k][0] in MergeAll(gs[..n]).tasks
  {
    forall k | 0 <= k < n ensures chains[k] != [] && chains[k][0] in MergeAll(gs[..n]).tasks {
      MergedKeys(gs[..n], k);
      assert First(chains[k]) in gs[k].tasks;
    }
  }

  lemma MergedWithNothing(g: Graph)
    requires Ordered(g)
    ensures Updated(EmptyGraph, g) == g
  {
    UpdatedIsMerge(EmptyGraph, g);
    var r := Merge(EmptyGraph, g);
    assert r.order == g.order;
    assert r.tasks == g.tasks;
  }

  lemma OneMerged(gs: seq<Graph>, chains: seq<seq<int>>)
    requires |gs| >= 1 && |chains| >= 1 && Ordered(gs[0])
    ensures MergeAll(gs[..1]) == gs[0] && Flat(chains[..1]) == chains[0]
  {
    MergedWithNothing(gs[0]);
    assert gs[..1] == [gs[0]] && [gs[0]][..0] == [];
    assert chains[..1] == [chains[0]] && [chains[0]][..0] == [];
    assert Flat([]) + chains[0] == chains[0];
  }

  lemma NextMerged(gs: seq<Graph>, n: nat)
    requires Apart(gs) && 1 < n <= |gs| && Ordered(gs[n - 1])
    ensures MergeAll(gs[..n]) == Merge(MergeAll(gs[..n - 1]), gs[n - 1])
    ensures MergeAll(gs[..n - 1]).tasks.Keys !! gs[n - 1].tasks.Keys
  {
    assert gs[..n][..n - 1] == gs[..n - 1];
    MergedIsApart(gs[..n - 1], gs[n - 1]);
    UpdatedIsMerge(MergeAll(gs[..n - 1]), gs[n - 1]);
  }

  lemma FlatNext(chains: seq<seq<int>>, n: nat)
    requires 0 < n <= |chains|
    ensures Flat(chains[..n]) == Flat(chains[..n - 1]) + chains[n - 1]
  {
    assert chains[..n][..n - 1] == chains[..n - 1];
  }

  lemma LastOfFlat(chains: seq<seq<int>>, n: nat)
    requires 0 < n <= |chains| && chains[n - 1] != []
    ensures Flat(chains[..n]) != [] && Last(Flat(chains[..n])) == Last(chains[n - 1])
  {
    FlatNext(chains, n);
  }

  // ----- the merged graph -----

  /** Who is named as a successor has the predecessor. */
  ghost predicate SuccsAreEdges(m: TaskMap) {
    forall p :: p in m ==> forall t :: t in m[p].succs ==> Edge(m, p, t)
  }

  lemma SuccessorsLink(g: Graph)
    requires Closed(g.tasks) && SuccsAreEdges(g.tasks)
    ensures Linked(WithSuccessors(g).tasks)
  {
    var m := WithSuccessors(g).tasks;
    forall p | p in m ensures m[p].succs == set t | t in m && p in m[t].preds {
      var exact := set t | t in m && p in m[t].preds;
      forall t ensures t in m[p].succs <==> t in exact {
        if t in g.tasks[p].succs {
          assert Edge(g.tasks, p, t);
        }
      }
    }
  }

  lemma {:induction false} MergedEdges(gs: seq<Graph>)
    requires (forall k :: 0 <= k < |gs| ==> Ordered(gs[k]) && Linked(gs[k].tasks)) && Apart(gs)
    ensures Ordered(MergeAll(gs)) && Closed(MergeAll(gs).tasks) && SuccsAreEdges(MergeAll(gs).tasks)
  {
    if gs != [] {
      var front, last := gs[..|gs| - 1], gs[|gs| - 1];
      MergedEdges(front);
      MergedIsApart(front, last);
      UpdatedIsMerge(MergeAll(front), last);
      MergedIsOrdered(MergeAll(front), last);
      MergeKeepsEdges(MergeAll(front), last);
    }
  }

  lemma MergeKeepsEdges(g: Graph, h: Graph)
    requires g.tasks.Keys !! h.tasks.Keys && Closed(g.tasks) && SuccsAreEdges(g.tasks) && Linked(h.tasks)
    ensures Closed(Merge(g, h).tasks) && SuccsAreEdges(Merge(g, h).tasks)
  {
    var m := Merge(g, h).tasks;
    forall p | p in m ensures forall t :: t in m[p].succs ==> Edge(m, p, t) {
      forall t | t in m[p].succs ensures Edge(m, p, t) {
        if p in h.tasks {
          assert t in h.tasks && p in h.tasks[t].preds;
        } else {
          assert Edge(g.tasks, p, t);
        }
      }
    }
  }

  lemma {:induction false} TiedKeepsEdges(g: Graph, chains: seq<seq<int>>, n: nat)
    requires n <= |chains|
    requires forall k :: 0 <= k < n ==> chains[k] != [] && chains[k][0] in g.tasks && Elements(chains[k]) <= g.tasks.Keys
    requires Ordered(g) && Closed(g.tasks) && SuccsAreEdges(g.tasks)
    ensures var r := Tied(g, chains, n); Ordered(r) && Closed(r.tasks) && SuccsAreEdges(r.tasks)
  {
    if n > 1 {
      TiedKeepsEdges(g, chains, n - 1);
      PrecededKeepsEdges(Tied(g, chains, n - 1), chains[n - 1][0], Last(chains[n - 2]));
    }
  }

  lemma PrecededKeepsEdges(g: Graph, t: int, p: int)
    requires t in g.tasks && p in g.tasks && Ordered(g) && Closed(g.tasks) && SuccsAreEdges(g.tasks)
    ensures var r := Preceded(g, t, p); Ordered(r) && Closed(r.tasks) && SuccsAreEdges(r.tasks)
  {
    var r := Preceded(g, t, p);
    forall q | q in r.tasks ensures forall u :: u in r.tasks[q].succs ==> Edge(r.tasks, q, u) {
      assert forall u :: u in g.tasks[q].succs ==> Edge(g.tasks, q, u);
    }
  }

  ghost function IndexIn(c: seq<int>, t: int): (i: nat)
    requires t in Elements(c)
    ensures i < |c| && c[i] == t
  {
    if c[0] == t then 0 else
      assert t in Elements(c[1..]);
      IndexIn(c[1..], t) + 1
  }

  lemma PathIsAcyclic(g: Graph, c: seq<int>)
    requires IsSinglePath(g, c)
    ensures Acyclic(g.tasks)
  {
    var rank := map t | t in Elements(c) :: IndexIn(c, t);
    forall t, x | t in g.tasks && x in g.tasks[t].preds && x in g.tasks ensures rank[x] < rank[t] {
      PredsOnPath(g, c, IndexIn(c, t));
    }
    RankedIsAcyclic(g.tasks, rank);
  }

  lemma SuccessorsKeepPath(g: Graph, c: seq<int>)
    requires IsSinglePath(g, c)
    ensures IsSinglePath(WithSuccessors(g), c)
  {
    var r := WithSuccessors(g);
    assert r.tasks.Keys == g.tasks.Keys;
    forall i, j {:trigger c[i], c[j]} | 0 <= i && j == i + 1 && j < |c| ensures r.tasks[c[j]].preds == {c[i]} {
      PredsOnPath(g, c, j);
    }
  }

  /** `merge_linear` of paths without common tasks is again a graph that can be linearised,
      to the paths one after the other. */
  lemma MergedPathsAreOnePath(gs: seq<Graph>, chains: seq<seq<int>>, merged: Graph)
    requires ArePaths(gs, chains) && Apart(gs) && gs != []
    requires IsMergedLinear(gs, chains, merged)
    ensures Ordered(merged) && Linked(merged.tasks) && Acyclic(merged.tasks)
    ensures IsSinglePath(merged, Flat(chains)) && Follows(merged, Flat(chains))
  {
    HeadsOfAll(gs, chains);
    var tied := Tied(MergeAll(gs), chains, |gs|);
    AllTiedIsPath(gs, chains, tied);
    AllTiedIsGraph(gs, chains, tied);
    FinishedPath(tied, Flat(chains));
  }

  lemma HeadsOfAll(gs: seq<Graph>, chains: seq<seq<int>>)
    requires ArePaths(gs, chains)
    ensures forall k :: 0 <= k < |gs| ==> chains[k] != [] && chains[k][0] in MergeAll(gs).tasks
  {
    HeadsAreMerged(gs, chains, |gs|);
    assert gs[..|gs|] == gs;
  }

  lemma AllTiedIsPath(gs: seq<Graph>, chains: seq<seq<int>>, tied: Graph)
    requires ArePaths(gs, chains) && Apart(gs) && gs != []
    requires (forall k :: 0 <= k < |gs| ==> chains[k][0] in MergeAll(gs).tasks)
    requires tied == Tied(MergeAll(gs), chains, |gs|)
    ensures IsSinglePath(tied, Flat(chains))
  {
    assert gs[..|gs|] == gs && chains[..|gs|] == chains;
    TiedIsPath(gs, chains, |gs|);
  }

  lemma AllTiedIsGraph(gs: seq<Graph>, chains: seq<seq<int>>, tied: Graph)
    requires ArePaths(gs, chains) && Apart(gs)
    requires (forall k :: 0 <= k < |gs| ==> chains[k][0] in MergeAll(gs).tasks)
    requires tied == Tied(MergeAll(gs), chains, |gs|)
    ensures Ordered(tied) && Closed(tied.tasks) && SuccsAreEdges(tied.tasks)
  {
    MergedEdges(gs);
    forall k | 0 <= k < |gs| ensures Elements(chains[k]) <= MergeAll(gs).tasks.Keys {
      MergedKeys(gs, k);
    }
    TiedKeepsEdges(MergeAll(gs), chains, |gs|);
  }

  lemma FinishedPath(g: Graph, c: seq<int>)
    requires Ordered(g) && Closed(g.tasks) && SuccsAreEdges(g.tasks) && IsSinglePath(g, c)
    ensures var r := WithSuccessors(g);
            Ordered(r) && Linked(r.tasks) && Acyclic(r.tasks) && IsSinglePath(r, c) && Follows(r, c)
  {
    SuccessorsLink(g);
    SuccessorsKeepPath(g, c);
    PathIsAcyclic(WithSuccessors(g), c);
    assert WithSuccessors(g).tasks.Keys == g.tasks.Keys;
    PathIsFollowed(WithSuccessors(g), c);
  }

  // ----- the method -----

  lemma {:induction false} SameChain(g: Graph, c: seq<int>, d: seq<int>, n: nat)
    requires Follows(g, c) && Follows(g, d) && n <= |g.order|
    ensures c[..n] == d[..n]
  {
    if n > 0 {
      SameChain(g, c, d, n - 1);
      var j := n - 1;
      if n > 1 {
        var i := n - 2;
        assert c[..j][i] == d[..j][i];
        assert OnlyNext(g, c[i], c[j]) && OnlyNext(g, d[i], d[j]) && c[i] == d[i];
        assert c[j] in {d[j]};
      }
      assert c[..n] == c[..j] + [c[j]] && d[..n] == d[..j] + [d[j]];
    }
  }

  lemma OnlyOneChain(g: Graph, c: seq<int>, d: seq<int>)
    requires Follows(g, c) && Follows(g, d)
    ensures c == d
  {
    SameChain(g, c, d, |g.order|);
    assert c[..|g.order|] == c && d[..|g.order|] == d;
  }

  lemma UpdatedIsOrdered(g: Graph, h: Graph)
    requires Ordered(g) && Ordered(h)
    ensures Ordered(Updated(g, h))
  {
    var fresh' := Pick(h.order, h.tasks.Keys - g.tasks.Keys);
    PickNoDup(h.order, h.tasks.Keys - g.tasks.Keys);
    var order := g.order + fresh';
    forall i, j | 0 <= i < j < |order| ensures order[i] != order[j] {
      if i < |g.order| <= j {
        assert order[i] in Elements(g.order) && order[j] in fresh';
      }
    }
  }

  lemma UpdatedIsClosed(g: Graph, h: Graph)
    requires Closed(g.tasks) && Closed(h.tasks)
    ensures Closed(Updated(g, h).tasks)
  {
  }

  ghost predicate AreGraphs(gs: seq<Graph>) {
    forall k :: 0 <= k < |gs| ==> Ordered(gs[k]) && Linked(gs[k].tasks)
  }

  /** The chains of the first `n` graphs; none of them is empty. */
  ghost predicate AreChains(gs: seq<Graph>, chains: seq<seq<int>>, n: nat) {
    n <= |gs| && n <= |chains| && forall k :: 0 <= k < n ==> chains[k] != [] && Follows(gs[k], chains[k])
  }

  ghost predicate IsLinear(g: Graph) {
    exists c :: c != [] && Follows(g, c)
  }

  lemma ChainInGraph(g: Graph, c: seq<int>)
    requires Ordered(g) && Linked(g.tasks) && c != [] && Follows(g, c)
    ensures c[0] in g.tasks && Last(c) in g.tasks
  {
    ChainIsPath(g, c);
  }

  lemma HeadsInMerged(gs: seq<Graph>, chains: seq<seq<int>>, n: nat)
    requires AreGraphs(gs) && AreChains(gs, chains, n)
    ensures forall k :: 0 <= k < n ==> chains[k][0] in MergeAll(gs).tasks && Last(chains[k]) in MergeAll(gs).tasks
  {
    forall k | 0 <= k < n ensures chains[k][0] in MergeAll(gs).tasks && Last(chains[k]) in MergeAll(gs).tasks {
      ChainInGraph(gs[k], chains[k]);
      MergedKeys(gs, k);
    }
  }

  lemma PrecededIsGraph(g: Graph, t: int, p: int)
    requires t in g.tasks && p in g.tasks && Ordered(g) && Closed(g.tasks)
    ensures Ordered(Preceded(g, t, p)) && Closed(Preceded(g, t, p).tasks)
  {
  }

  ghost predicate HaveValues(graphs: seq<TaskGraph>, gs: seq<Graph>)
    reads graphs
  {
    |gs| == |graphs| && forall k :: 0 <= k < |graphs| ==> gs[k] == graphs[k].Value()
  }

  method MergeGraphs(graphs: seq<TaskGraph>, ghost gs: seq<Graph>) returns (merged: TaskGraph)
    requires HaveValues(graphs, gs) && AreGraphs(gs)
    ensures fresh(merged) && merged.Value() == MergeAll(gs) && Ordered(merged.Value()) && Closed(merged.tasks)
  {
    merged := new TaskGraph();
    for i := 0 to |graphs|
      invariant fresh(merged) && merged.Value() == MergeAll(gs[..i]) && Ordered(merged.Value()) && Closed(merged.tasks)
    {
      assert gs[..i + 1][..i] == gs[..i];
      UpdatedIsOrdered(merged.Value(), gs[i]);
      UpdatedIsClosed(merged.Value(), gs[i]);
      merged.Update(Graph(graphs[i].order, graphs[i].tasks));
    }
    assert gs[..|graphs|] == gs;
  }

  lemma EmptyIsNotLinear(g: Graph)
    requires Follows(g, [])
    ensures !IsLinear(g)
  {
    assert forall c :: Follows(g, c) ==> c == [];
  }

  /** Both chains; None if one of the graphs cannot be linearised or is empty. */
  method ChainsOf(a: TaskGraph, b: TaskGraph) returns (pair: Option<(seq<int>, seq<int>)>)
    requires Ordered(a.Value()) && Ordered(b.Value())
    ensures pair.Some? <==> IsLinear(a.Value()) && IsLinear(b.Value())
    ensures pair.Some? ==> pair.value.0 != [] && Follows(a.Value(), pair.value.0)
    ensures pair.Some? ==> pair.value.1 != [] && Follows(b.Value(), pair.value.1)
  {
    var chain1 := a.Linearize();
    var chain2 := b.Linearize();
    if chain1.None? || chain2.None? {
      return None;
    }
    if chain1.value == [] {
      EmptyIsNotLinear(a.Value());
      return None;
    }
    if chain2.value == [] {
      EmptyIsNotLinear(b.Value());
      return None;
    }
    pair := Some((chain1.value, chain2.value));
  }

  ghost predicate IsGraph(g: Graph) {
    Ordered(g) && Closed(g.tasks)
  }

  /** From two graphs on, the chains of the first `n` graphs are known. */
  ghost predicate ChainsKnown(gs: seq<Graph>, chains: seq<seq<int>>, n: nat) {
    n > 1 ==> |chains| == n && AreChains(gs, chains, n) && forall k :: 0 <= k < n ==> chains[k][0] in MergeAll(gs).tasks
  }

  ghost predicate IsTied(gs: seq<Graph>, chains: seq<seq<int>>, n: nat, g: Graph)
    requires ChainsKnown(gs, chains, n)
  {
    g == Tied(MergeAll(gs), chains, n)
  }

  /** The first `n` graphs are tied together. */
  ghost predicate TiedSoFar(gs: seq<Graph>, chains: seq<seq<int>>, n: nat, g: Graph) {
    IsGraph(g) && ChainsKnown(gs, chains, n) && IsTied(gs, chains, n, g)
  }

  lemma ChainsNext(gs: seq<Graph>, chains: seq<seq<int>>, n: nat, c: seq<int>, d: seq<int>)
    returns (more: seq<seq<int>>)
    requires 0 < n < |gs| && (n > 1 ==> |chains| == n && AreChains(gs, chains, n))
    requires c != [] && Follows(gs[n - 1], c) && d != [] && Follows(gs[n], d)
    ensures |more| == n + 1 && AreChains(gs, more, n + 1) && more[n - 1] == c && more[n] == d
    ensures n > 1 ==> chains <= more
  {
    if n == 1 {
      more := [c, d];
    } else {
      OnlyOneChain(gs[n - 1], chains[n - 1], c);
      more := chains + [d];
    }
  }

  lemma TieNext(gs: seq<Graph>, chains: seq<seq<int>>, n: nat, g: Graph, c: seq<int>, d: seq<int>)
    returns (more: seq<seq<int>>)
    requires AreGraphs(gs) && 0 < n < |gs| && TiedSoFar(gs, chains, n, g)
    requires c != [] && Follows(gs[n - 1], c) && d != [] && Follows(gs[n], d)
    ensures d[0] in g.tasks && TiedSoFar(gs, more, n + 1, Preceded(g, d[0], Last(c)))
  {
    more := ChainsNext(gs, chains, n, c, d);
    HeadsInMerged(gs, more, n + 1);
    TiedNext(gs, chains, more, n, g);
    PrecededIsGraph(g, d[0], Last(c));
  }

  lemma TiedNext(gs: seq<Graph>, chains: seq<seq<int>>, more: seq<seq<int>>, n: nat, g: Graph)
    requires 0 < n && |more| == n + 1 && (n > 1 ==> |chains| == n && chains <= more)
    requires forall k :: 0 <= k <= n ==> more[k] != [] && more[k][0] in MergeAll(gs).tasks
    requires g == Tied(MergeAll(gs), chains, n)
    ensures more[n][0] in g.tasks
    ensures Tied(MergeAll(gs), more, n + 1) == Preceded(g, more[n][0], Last(more[n - 1]))
  {
    assert n > 1 ==> forall k :: 0 <= k < n ==> chains[k] == more[k];
    TiedByTheFirst(MergeAll(gs), chains, more, n);
  }

  ghost predicate AllLinear(gs: seq<Graph>) {
    forall k :: 0 <= k < |gs| ==> IsLinear(gs[k])
  }

  /** Puts the graph `b` behind `a`, the last of those that are tied already. */
  method TieOne(a: TaskGraph, b: TaskGraph, all: TaskGraph, ghost gs: seq<Graph>, ghost chains: seq<seq<int>>,
                ghost n: nat)
    returns (ok: bool, ghost more: seq<seq<int>>)
    requires AreGraphs(gs) && 0 < n < |gs| && a.Value() == gs[n - 1] && b.Value() == gs[n]
    requires all != a && all != b && TiedSoFar(gs, chains, n, all.Value())
    modifies all
    ensures if ok then TiedSoFar(gs, more, n + 1, all.Value()) else !AllLinear(gs)
  {
    var pair := ChainsOf(a, b);
    if pair.None? {
      return false, [];
    }
    var (c, d) := pair.value;
    more := TieNext(gs, chains, n, all.Value(), c, d);
    all.AddPredecessor(d[0], Last(c));
    ok := true;
  }

  /** Puts each graph behind the one before. */
  method TieAll(graphs: seq<TaskGraph>, ghost gs: seq<Graph>, all: TaskGraph)
    returns (ok: bool, ghost chains: seq<seq<int>>)
    requires HaveValues(graphs, gs) && AreGraphs(gs) && all !in graphs && TiedSoFar(gs, [], 1, all.Value())
    modifies all
    ensures !ok ==> |gs| > 1 && !AllLinear(gs)
    ensures ok ==> TiedSoFar(gs, chains, if |gs| == 0 then 1 else |gs|, all.Value())
  {
    chains := [];
    var i := 1;
    while i < |graphs|
      invariant i == 1 || 1 < i <= |graphs|
      invariant HaveValues(graphs, gs) && TiedSoFar(gs, chains, i, all.Value())
    {
      ok, chains := TieOne(graphs[i - 1], graphs[i], all, gs, chains, i);
      if !ok {
        return;
      }
      i := i + 1;
    }
    ok := true;
  }

  lemma MergedIsGraph(gs: seq<Graph>, g: Graph)
    requires g == MergeAll(gs) && Ordered(g) && Closed(g.tasks)
    ensures TiedSoFar(gs, [], 1, g)
  {
  }

  ghost predicate IsMergedLinear(gs: seq<Graph>, chains: seq<seq<int>>, merged: Graph) {
    && (|gs| > 1 ==> AreChains(gs, chains, |gs|) && forall k :: 0 <= k < |gs| ==> chains[k][0] in MergeAll(gs).tasks)
    && merged == WithSuccessors(Tied(MergeAll(gs), chains, |gs|))
  }

  lemma TiedIsMergedLinear(gs: seq<Graph>, chains: seq<seq<int>>, n: nat, g: Graph)
    requires TiedSoFar(gs, chains, n, g) && n == if |gs| == 0 then 1 else |gs|
    ensures IsMergedLinear(gs, chains, WithSuccessors(g))
    ensures |gs| <= 1 || AllLinear(gs)
  {
  }

  /** None if there are several graphs and one of them is empty or cannot be linearised. */
  method MergeLinear(graphs: seq<TaskGraph>, ghost gs: seq<Graph>)
    returns (merged: Option<TaskGraph>, ghost chains: seq<seq<int>>)
    requires HaveValues(graphs, gs) && AreGraphs(gs)
    ensures merged.Some? <==> |gs| <= 1 || AllLinear(gs)
    ensures merged.Some? ==> fresh(merged.value) && IsMergedLinear(gs, chains, merged.value.Value())
  {
    var all := MergeGraphs(graphs, gs);
    MergedIsGraph(gs, all.Value());
    var ok;
    ok, chains := TieAll(graphs, gs, all);
    if !ok {
      return None, [];
    }
    TiedIsMergedLinear(gs, chains, if |gs| == 0 then 1 else |gs|, all.Value());
    all.UpdateSuccessors();
    merged := Some(all);
  }

  lemma {:induction false} TiedByTheFirst(g: Graph, chains: seq<seq<int>>, more: seq<seq<int>>, n: nat)
    requires n <= |more|
    requires n > 1 ==> n <= |chains| && chains <= more && forall k :: 0 <= k < n ==> chains[k] != [] && chains[k][0] in g.tasks
    ensures Tied(g, chains, n) == Tied(g, more, n)
  {
    if n > 1 {
      assert forall k :: 0 <= k < n ==> chains[k] == more[k];
      TiedByTheFirst(g, chains, more, n - 1);
    }
  }
}
