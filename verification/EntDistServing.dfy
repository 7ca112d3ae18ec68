/** Which requests `serve_all_requests` serves (qoala/sim/entdist/entdist.py:241-297). */
module EntDistServing {
  import opened Tasks
  import opened EntDist
  import opened EntDistTheorems

  // ----- the condition, on the lists before serving -----

  /** The number of earlier requests of the same key. */
  function Rank(requests: seq<Request>, p: nat): nat
    requires p < |requests|
  {
    |Of(requests[..p], requests[p].GetKey())|
  }

  /** The request has no partner, however long it waits: too few opposite requests. */
  predicate Hopeless(lists: Lists, n: int, p: nat)
    requires n in lists && p < |lists[n]|
  {
    Rank(lists[n], p) >= |PendingOf(lists, lists[n][p].GetKey().Opposite())|
  }

  /** A request is behind a hopeless one in the list of its node. */
  predicate Behind(lists: Lists, n: int, p: nat)
    requires n in lists && p < |lists[n]|
  {
    exists q: nat :: q < p && Hopeless(lists, n, q)
  }

  ghost predicate ArePartners(lists: Lists, n: int, p: nat, m: int, q: nat) {
    && n in lists && p < |lists[n]| && m in lists && q < |lists[m]|
    && lists[n][p].IsOpposite(lists[m][q]) && Rank(lists[n], p) == Rank(lists[m], q)
  }

  /** The request at position `p` is among those that the pairs served, first come first served. */
  ghost predicate IsServed(lists: Lists, pairs: seq<Pair>, n: int, p: nat)
    requires n in lists && p < |lists[n]|
  {
    Rank(lists[n], p) < |PairsOf(pairs, lists[n][p].GetKey())|
  }

  /** The requests that the pairs did not serve. */
  function Remaining(requests: seq<Request>, pairs: seq<Pair>): seq<Request> {
    if requests == [] then []
    else
      var front, last := requests[..|requests| - 1], requests[|requests| - 1];
      Remaining(front, pairs) + if |Of(front, last.GetKey())| >= |PairsOf(pairs, last.GetKey())| then [last] else []
  }

  // ----- positions -----

  lemma {:induction false} PositionOf(requests: seq<Request>, k: Key, j: nat) returns (p: nat)
    requires j < |Of(requests, k)|
    ensures p < |requests| && requests[p].GetKey() == k && Rank(requests, p) == j
  {
    var front, last := requests[..|requests| - 1], requests[|requests| - 1];
    if j < |Of(front, k)| {
      p := PositionOf(front, k, j);
      assert front[..p] == requests[..p];
    } else {
      p := |requests| - 1;
    }
  }

  lemma {:induction false} OfGrows(requests: seq<Request>, p: nat, k: Key)
    requires p < |requests|
    ensures |Of(requests[..p], k)| + (if requests[p].GetKey() == k then 1 else 0) <= |Of(requests, k)|
  {
    var a, b := requests[..p], requests[p + 1..];
    assert requests == (a + [requests[p]]) + b;
    OfConcat(a + [requests[p]], b, k);
    OfAppend(a, requests[p], k);
  }

  lemma RankIsInjective(requests: seq<Request>, p: nat, q: nat)
    requires p < q < |requests| && requests[p].GetKey() == requests[q].GetKey()
    ensures Rank(requests, p) < Rank(requests, q)
  {
    assert requests[..q][..p] == requests[..p];
    OfGrows(requests[..q], p, requests[p].GetKey());
  }

  lemma RankIsBounded(requests: seq<Request>, p: nat)
    requires p < |requests|
    ensures Rank(requests, p) < |Of(requests, requests[p].GetKey())|
  {
    OfGrows(requests, p, requests[p].GetKey());
  }

  // ----- the requests that remain -----

  lemma {:induction false} RemainingCount(requests: seq<Request>, pairs: seq<Pair>, k: Key)
    ensures var c, all := |PairsOf(pairs, k)|, |Of(requests, k)|;
            |Of(Remaining(requests, pairs), k)| == if all >= c then all - c else 0
  {
    if requests != [] {
      var front, last := requests[..|requests| - 1], requests[|requests| - 1];
      RemainingCount(front, pairs, k);
      OfAppend(Remaining(front, pairs), last, k);
      assert Remaining(front, pairs) + [] == Remaining(front, pairs);
    }
  }

  lemma {:induction false} RemainingSame(requests: seq<Request>, pairs: seq<Pair>, pairs': seq<Pair>)
    requires forall r :: r in requests ==> |PairsOf(pairs', r.GetKey())| == |PairsOf(pairs, r.GetKey())|
    ensures Remaining(requests, pairs') == Remaining(requests, pairs)
  {
    if requests != [] {
      var front, last := requests[..|requests| - 1], requests[|requests| - 1];
      assert last in requests;
      assert forall r :: r in front ==> r in requests;
      RemainingSame(front, pairs, pairs');
    }
  }

  lemma {:induction false} RemainingNone(requests: seq<Request>)
    ensures Remaining(requests, []) == requests
  {
    if requests != [] {
      RemainingNone(requests[..|requests| - 1]);
      assert requests[..|requests| - 1] + [requests[|requests| - 1]] == requests;
    }
  }

  /** One more pair of key `k`. */
  ghost predicate OneMore(requests: seq<Request>, pairs: seq<Pair>, pairs': seq<Pair>, k: Key) {
    forall r :: r in requests ==>
      |PairsOf(pairs', r.GetKey())| == |PairsOf(pairs, r.GetKey())| + if r.GetKey() == k then 1 else 0
  }

  ghost predicate IsFirstOf(requests: seq<Request>, i: nat, k: Key) {
    i < |requests| && requests[i].GetKey() == k && forall j :: 0 <= j < i ==> requests[j].GetKey() != k
  }

  lemma FirstInFront(a: seq<Request>, last: Request, i: nat, k: Key)
    requires IsFirstOf(a + [last], i, k) && Of(a, k) != []
    ensures i < |a| && IsFirstOf(a, i, k) && Without(a + [last], i) == Without(a, i) + [last]
  {
    var s := a + [last];
    if i == |a| {
      forall r | r in a ensures r.GetKey() != k {
        var j :| 0 <= j < |a| && a[j] == r;
        assert s[j] == r;
      }
      OfNone(a, k);
      assert false;
    }
    assert s[i] == a[i] && forall j :: 0 <= j < i ==> s[j] == a[j];
  }

  lemma FirstIsLast(a: seq<Request>, last: Request, i: nat, k: Key)
    requires IsFirstOf(a + [last], i, k) && Of(a, k) == []
    ensures last.GetKey() == k && Without(a + [last], i) == a
  {
    var s := a + [last];
    if i < |a| {
      assert s[i] == a[i];
      assert forall j :: 0 <= j < i ==> s[j] == a[j];
      FirstOfKeyRemoved(a, i, k);
    }
  }

  /** A key with no request left has no request to lose. */
  lemma {:induction false} NothingToDrop(requests: seq<Request>, pairs: seq<Pair>, pairs': seq<Pair>, k: Key)
    requires OneMore(requests, pairs, pairs', k) && |Of(requests, k)| <= |PairsOf(pairs, k)|
    ensures Remaining(requests, pairs') == Remaining(requests, pairs)
  {
    if requests != [] {
      var front, last := requests[..|requests| - 1], requests[|requests| - 1];
      assert last in requests;
      assert forall r :: r in front ==> r in requests;
      NothingToDrop(front, pairs, pairs', k);
    }
  }

  /** Serving the next request of a key takes its first request away. */
  lemma {:induction false} RemainingDrop(requests: seq<Request>, pairs: seq<Pair>, pairs': seq<Pair>, k: Key, i: nat)
    requires OneMore(requests, pairs, pairs', k) && IsFirstOf(Remaining(requests, pairs), i, k)
    ensures Remaining(requests, pairs') == Without(Remaining(requests, pairs), i)
  {
    var front, last := requests[..|requests| - 1], requests[|requests| - 1];
    var rest := Remaining(front, pairs);
    assert last in requests;
    assert forall r :: r in front ==> r in requests;
    RemainingCount(front, pairs, k);
    if |Of(front, last.GetKey())| < |PairsOf(pairs, last.GetKey())| {
      assert rest + [] == rest;
      RemainingDrop(front, pairs, pairs', k, i);
    } else if Of(rest, k) != [] {
      FirstInFront(rest, last, i, k);
      RemainingDrop(front, pairs, pairs', k, i);
    } else {
      FirstIsLast(rest, last, i, k);
      NothingToDrop(front, pairs, pairs', k);
    }
  }

  /** The first request that remains: everything before it has been served. */
  lemma {:induction false} HeadOf(requests: seq<Request>, pairs: seq<Pair>) returns (h: nat)
    requires Remaining(requests, pairs) != []
    ensures h < |requests| && requests[h] == Remaining(requests, pairs)[0]
    ensures Rank(requests, h) >= |PairsOf(pairs, requests[h].GetKey())|
    ensures forall q: nat :: q < h ==> Rank(requests, q) < |PairsOf(pairs, requests[q].GetKey())|
  {
    var front := requests[..|requests| - 1];
    if Remaining(front, pairs) != [] {
      h := HeadOf(front, pairs);
      assert front[..h] == requests[..h];
    } else {
      h := |requests| - 1;
    }
    forall q: nat | q < h ensures Rank(requests, q) < |PairsOf(pairs, requests[q].GetKey())| {
      assert front[..q] == requests[..q] && front[q] == requests[q];
      if Remaining(front, pairs) == [] {
        AllServed(front, pairs, q);
      }
    }
  }

  lemma {:induction false} AllServed(requests: seq<Request>, pairs: seq<Pair>, q: nat)
    requires Remaining(requests, pairs) == [] && q < |requests|
    ensures Rank(requests, q) < |PairsOf(pairs, requests[q].GetKey())|
  {
    var front := requests[..|requests| - 1];
    if q < |front| {
      AllServed(front, pairs, q);
      assert front[..q] == requests[..q];
    }
  }

  lemma EarlierRank(requests: seq<Request>, h: nat, j: nat) returns (p: nat)
    requires h < |requests| && j < Rank(requests, h)
    ensures p < h && requests[p].GetKey() == requests[h].GetKey() && Rank(requests, p) == j
  {
    p := PositionOf(requests[..h], requests[h].GetKey(), j);
    assert requests[..h][..p] == requests[..p];
  }

  lemma HeadRank(requests: seq<Request>, pairs: seq<Pair>) returns (h: nat)
    requires Remaining(requests, pairs) != []
    ensures h < |requests| && requests[h] == Remaining(requests, pairs)[0]
    ensures Rank(requests, h) == |PairsOf(pairs, requests[h].GetKey())|
    ensures forall q: nat :: q < h ==> Rank(requests, q) < |PairsOf(pairs, requests[q].GetKey())|
  {
    h := HeadOf(requests, pairs);
    var c := |PairsOf(pairs, requests[h].GetKey())|;
    if Rank(requests, h) > c {
      var p := EarlierRank(requests, h, c);
    }
  }

  // ----- runs -----

  ghost predicate PendingIs(lists: Lists, pairs: seq<Pair>, lists': Lists, k: Key) {
    PendingOf(lists, k) == Locals(PairsOf(pairs, k)) + PendingOf(lists', k)
  }

  /** The `j`-th request of `k` is not behind a hopeless one. */
  ghost predicate IsFree(lists: Lists, k: Key, j: nat) {
    exists p: nat :: k.node in lists && p < |lists[k.node]| && lists[k.node][p].GetKey() == k
      && Rank(lists[k.node], p) == j && !Behind(lists, k.node, p)
  }

  ghost predicate FreeOnOneSide(lists: Lists, pairs: seq<Pair>, k: Key) {
    forall j: nat :: j < |PairsOf(pairs, k)| ==> IsFree(lists, k, j) || IsFree(lists, k.Opposite(), j)
  }

  ghost predicate ServeInv(nodes: seq<int>, lists: Lists, pairs: seq<Pair>, lists': Lists) {
    && Valid(nodes, lists') && lists'.Keys == lists.Keys && AreOpposites(pairs)
    && (forall n :: n in lists ==> lists'[n] == Remaining(lists[n], pairs))
    && (forall k :: PendingIs(lists, pairs, lists', k))
    && (forall k :: FreeOnOneSide(lists, pairs, k))
  }

  lemma {:induction false} LocalsLength(pairs: seq<Pair>)
    ensures |Locals(pairs)| == |pairs|
  {
    if pairs != [] {
      LocalsLength(pairs[..|pairs| - 1]);
    }
  }

  lemma ServedAtMostPending(lists: Lists, pairs: seq<Pair>, lists': Lists, k: Key)
    requires PendingIs(lists, pairs, lists', k)
    ensures |PairsOf(pairs, k)| + |PendingOf(lists', k)| == |PendingOf(lists, k)|
  {
    LocalsLength(PairsOf(pairs, k));
  }

  /** The request that is next to be served is behind no hopeless one. */
  lemma HeadIsFree(nodes: seq<int>, lists: Lists, pairs: seq<Pair>, lists': Lists, n: int)
    requires ServeInv(nodes, lists, pairs, lists') && Valid(nodes, lists) && n in lists && lists'[n] != []
    ensures var k := lists'[n][0].GetKey(); IsFree(lists, k, |PairsOf(pairs, k)|)
  {
    var h := HeadRank(lists[n], pairs);
    assert lists[n][h] in lists[n];
    forall q: nat | q < h ensures !Hopeless(lists, n, q) {
      var k := lists[n][q].GetKey();
      assert Rank(lists[n], q) < |PairsOf(pairs, k)|;
      PairsMirror(pairs, k, 0);
      ServedAtMostPending(lists, pairs, lists', k.Opposite());
    }
    assert !Behind(lists, n, h);
  }

  lemma OthersAreUnchanged(nodes: seq<int>, lists: Lists, pairs: seq<Pair>, lists': Lists, n: int, x: int)
    requires ServeInv(nodes, lists, pairs, lists') && Valid(nodes, lists) && Servable(lists', n)
    requires x in lists && x != n && x != lists'[n][0].remoteNode
    ensures Served(lists', n)[x] == Remaining(lists[x], pairs + [PairAt(lists', n)])
  {
    var p := PairAt(lists', n);
    forall r | r in lists[x] ensures |PairsOf(pairs + [p], r.GetKey())| == |PairsOf(pairs, r.GetKey())| {
      PairsAppend(pairs, p, r.GetKey());
    }
    RemainingSame(lists[x], pairs, pairs + [p]);
  }

  lemma LocalDrops(nodes: seq<int>, lists: Lists, pairs: seq<Pair>, lists': Lists, n: int)
    requires ServeInv(nodes, lists, pairs, lists') && Valid(nodes, lists) && Servable(lists', n)
    ensures Served(lists', n)[n] == Remaining(lists[n], pairs + [PairAt(lists', n)])
  {
    var p := PairAt(lists', n);
    assert lists'[n][0] in lists'[n];
    forall r | r in lists[n]
      ensures |PairsOf(pairs + [p], r.GetKey())| == |PairsOf(pairs, r.GetKey())| + if r.GetKey() == p.local.GetKey() then 1 else 0
    {
      PairsAppend(pairs, p, r.GetKey());
    }
    RemainingDrop(lists[n], pairs, pairs + [p], p.local.GetKey(), 0);
    assert Without(lists'[n], 0) == lists'[n][1..];
  }

  lemma RemoteDrops(nodes: seq<int>, lists: Lists, pairs: seq<Pair>, lists': Lists, n: int)
    requires ServeInv(nodes, lists, pairs, lists') && Valid(nodes, lists) && Servable(lists', n)
    ensures var m := lists'[n][0].remoteNode;
            m in lists && Served(lists', n)[m] == Remaining(lists[m], pairs + [PairAt(lists', n)])
  {
    var p := PairAt(lists', n);
    var m := p.local.remoteNode;
    var i := Partner(lists', n).value;
    assert lists'[n][0] in lists'[n];
    forall r | r in lists[m]
      ensures |PairsOf(pairs + [p], r.GetKey())| == |PairsOf(pairs, r.GetKey())| + if r.GetKey() == p.remote.GetKey() then 1 else 0
    {
      PairsAppend(pairs, p, r.GetKey());
    }
    forall j | 0 <= j < i ensures lists'[m][j].GetKey() != p.remote.GetKey() {
      OppositeIsKey(p.local, lists'[m][j]);
      OppositeIsKey(p.local, p.remote);
    }
    RemainingDrop(lists[m], pairs, pairs + [p], p.remote.GetKey(), i);
  }

  lemma ServingKeepsPending(nodes: seq<int>, lists: Lists, pairs: seq<Pair>, lists': Lists, n: int, k: Key)
    requires Valid(nodes, lists') && Servable(lists', n) && PendingIs(lists, pairs, lists', k)
    ensures PendingIs(lists, pairs + [PairAt(lists', n)], Served(lists', n), k)
  {
    ServedPending(nodes, lists', n, k);
    OneMorePair(pairs, PairAt(lists', n), PendingOf(lists, k), PendingOf(lists', k), PendingOf(Served(lists', n), k), k);
  }

  lemma ServingKeepsFree(nodes: seq<int>, lists: Lists, pairs: seq<Pair>, lists': Lists, n: int, k: Key)
    requires ServeInv(nodes, lists, pairs, lists') && Valid(nodes, lists) && Servable(lists', n)
    ensures FreeOnOneSide(lists, pairs + [PairAt(lists', n)], k)
  {
    var p := PairAt(lists', n);
    var c := |PairsOf(pairs, k)|;
    PairsAppend(pairs, p, k);
    HeadIsFree(nodes, lists, pairs, lists', n);
    PairsMirror(pairs, k, 0);
    OppositeIsKey(p.local, p.remote);
    assert FreeOnOneSide(lists, pairs, k);
    assert k.Opposite().Opposite() == k;
    if k == p.local.GetKey() {
      assert IsFree(lists, k, c);
    } else if k == p.remote.GetKey() {
      assert IsFree(lists, k.Opposite(), c);
    }
  }

  lemma ServingKeeps(nodes: seq<int>, lists: Lists, pairs: seq<Pair>, lists': Lists, n: int)
    requires ServeInv(nodes, lists, pairs, lists') && Valid(nodes, lists) && Servable(lists', n)
    ensures ServeInv(nodes, lists, pairs + [PairAt(lists', n)], Served(lists', n))
  {
    var p, after := PairAt(lists', n), Served(lists', n);
    ServedIsValid(nodes, lists', n);
    JointIsOpposite(nodes, lists', n);
    RemoteDrops(nodes, lists, pairs, lists', n);
    assert after.Keys == lists.Keys;
    forall x | x in lists ensures after[x] == Remaining(lists[x], pairs + [p]) {
      if x == n {
        LocalDrops(nodes, lists, pairs, lists', n);
      } else if x != lists'[n][0].remoteNode {
        OthersAreUnchanged(nodes, lists, pairs, lists', n, x);
      }
    }
    forall k ensures PendingIs(lists, pairs + [p], after, k) {
      ServingKeepsPending(nodes, lists, pairs, lists', n, k);
    }
    forall k ensures FreeOnOneSide(lists, pairs + [p], k) {
      ServingKeepsFree(nodes, lists, pairs, lists', n, k);
    }
  }

  lemma InvAtStart(nodes: seq<int>, lists: Lists)
    requires Valid(nodes, lists)
    ensures ServeInv(nodes, lists, [], lists)
  {
    forall n | n in lists ensures lists[n] == Remaining(lists[n], []) {
      RemainingNone(lists[n]);
    }
    forall k ensures PendingIs(lists, [], lists, k) && FreeOnOneSide(lists, [], k) {
      assert PairsOf([], k) == [];
      assert Locals([]) + PendingOf(lists, k) == PendingOf(lists, k);
    }
  }

  lemma LastServed(nodes: seq<int>, lists: Lists, pairs: seq<Pair>, lists': Lists, front: seq<Pair>, last: Pair)
    returns (between: Lists)
    requires pairs != [] && front == pairs[..|pairs| - 1] && last == pairs[|pairs| - 1]
    requires Serves(nodes, lists, pairs, lists')
    ensures Serves(nodes, lists, front, between) && NextJoint(nodes, between, Some(last), lists')
  {
    between :| Serves(nodes, lists, front, between) && NextJoint(nodes, between, Some(last), lists');
  }

  lemma {:induction false} ServesKeeps(nodes: seq<int>, lists: Lists, pairs: seq<Pair>, lists': Lists)
    requires Valid(nodes, lists) && Serves(nodes, lists, pairs, lists')
    ensures ServeInv(nodes, lists, pairs, lists')
    decreases |pairs|
  {
    if pairs == [] {
      InvAtStart(nodes, lists);
    } else {
      var front, last := pairs[..|pairs| - 1], pairs[|pairs| - 1];
      assert front + [last] == pairs;
      var between := LastServed(nodes, lists, pairs, lists', front, last);
      ServesKeeps(nodes, lists, front, between);
      JointKeeps(nodes, lists, front, between, last, lists');
    }
  }

  lemma JointKeeps(nodes: seq<int>, lists: Lists, pairs: seq<Pair>, between: Lists, pair: Pair, lists': Lists)
    requires Valid(nodes, lists) && ServeInv(nodes, lists, pairs, between) &&
             NextJoint(nodes, between, Some(pair), lists')
    ensures ServeInv(nodes, lists, pairs + [pair], lists')
  {
    var i: nat :| IsFirstServable(nodes, between, i) && Some(pair) == Some(PairAt(between, nodes[i]))
                  && lists' == Served(between, nodes[i]);
    ServingKeeps(nodes, lists, pairs, between, nodes[i]);
  }

  /** Serving takes the first requests of every key, in order, and leaves the others where
      they were. */
  lemma ServingLeaves(nodes: seq<int>, lists: Lists, pairs: seq<Pair>, lists': Lists, n: int, k: Key)
    requires Valid(nodes, lists) && Serves(nodes, lists, pairs, lists') && n in lists
    ensures PendingOf(lists, k) == Locals(PairsOf(pairs, k)) + PendingOf(lists', k)
    ensures n in lists' && lists'[n] == Remaining(lists[n], pairs)
  {
    ServesKeeps(nodes, lists, pairs, lists');
    assert PendingIs(lists, pairs, lists', k);
  }

  // ----- what is served -----

  ghost predicate Done(nodes: seq<int>, lists: Lists) {
    forall n :: n in nodes ==> !Servable(lists, n)
  }

  lemma HasRequestOf(lists: Lists, k: Key) returns (i: nat)
    requires PendingOf(lists, k) != []
    ensures k.node in lists && i < |lists[k.node]| && lists[k.node][i].GetKey() == k
  {
    i := PositionOf(lists[k.node], k, 0);
  }

  lemma HopefulHeadIsServable(nodes: seq<int>, lists: Lists, n: int)
    requires Valid(nodes, lists) && n in lists && lists[n] != [] &&
             PendingOf(lists, lists[n][0].GetKey().Opposite()) != []
    ensures Servable(lists, n)
  {
    var r := lists[n][0];
    assert r in lists[n];
    var i := HasRequestOf(lists, r.GetKey().Opposite());
    OppositeIsKey(r, lists[r.remoteNode][i]);
  }

  /** What is left on each side when `c` pairs of a key have been served. */
  lemma LeftOnBothSides(nodes: seq<int>, lists: Lists, pairs: seq<Pair>, lists': Lists, k: Key)
    requires ServeInv(nodes, lists, pairs, lists')
    ensures |PairsOf(pairs, k)| == |PairsOf(pairs, k.Opposite())|
    ensures |PendingOf(lists', k)| == |PendingOf(lists, k)| - |PairsOf(pairs, k)|
    ensures |PendingOf(lists', k.Opposite())| == |PendingOf(lists, k.Opposite())| - |PairsOf(pairs, k)|
  {
    assert PendingIs(lists, pairs, lists', k) && PendingIs(lists, pairs, lists', k.Opposite());
    PairsMirror(pairs, k, 0);
    ServedAtMostPending(lists, pairs, lists', k);
    ServedAtMostPending(lists, pairs, lists', k.Opposite());
  }

  lemma RemainsUnlessServed(lists: Lists, pairs: seq<Pair>, n: int, p: nat)
    requires n in lists && p < |lists[n]| && !IsServed(lists, pairs, n, p)
    ensures Remaining(lists[n], pairs) != []
  {
    if Remaining(lists[n], pairs) == [] {
      AllServed(lists[n], pairs, p);
    }
  }

  /** In the end a request with a partner is served, unless it is behind a hopeless one. */
  lemma FreeIsServed(nodes: seq<int>, lists: Lists, pairs: seq<Pair>, lists': Lists, n: int, p: nat)
    requires Valid(nodes, lists) && ServeInv(nodes, lists, pairs, lists') && Done(nodes, lists')
    requires n in lists && p < |lists[n]| && !Behind(lists, n, p) && !Hopeless(lists, n, p)
    ensures IsServed(lists, pairs, n, p)
  {
    if !IsServed(lists, pairs, n, p) {
      RemainsUnlessServed(lists, pairs, n, p);
      var h := HeadRank(lists[n], pairs);
      assert n in Elements(nodes);
      assert h <= p && !Hopeless(lists, n, h);
      LeftOnBothSides(nodes, lists, pairs, lists', lists[n][h].GetKey());
      HopefulHeadIsServable(nodes, lists', n);
    }
  }

  lemma PartnersAreSymmetric(nodes: seq<int>, lists: Lists, n: int, p: nat, m: int, q: nat)
    requires Valid(nodes, lists) && ArePartners(lists, n, p, m, q)
    ensures ArePartners(lists, m, q, n, p) && !Hopeless(lists, n, p)
    ensures lists[m][q].GetKey() == lists[n][p].GetKey().Opposite() && lists[n][p].GetKey().node == n
  {
    assert lists[n][p] in lists[n] && lists[m][q] in lists[m];
    RankIsBounded(lists[m], q);
  }

  lemma FreeIsNotBehind(nodes: seq<int>, lists: Lists, n: int, p: nat)
    requires Valid(nodes, lists) && n in lists && p < |lists[n]| &&
             IsFree(lists, lists[n][p].GetKey(), Rank(lists[n], p))
    ensures !Behind(lists, n, p)
  {
    var k := lists[n][p].GetKey();
    assert lists[n][p] in lists[n];
    var p': nat :| p' < |lists[n]| && lists[n][p'].GetKey() == k && Rank(lists[n], p') == Rank(lists[n], p) && !Behind(lists, n, p');
    if p' < p { RankIsInjective(lists[n], p', p); }
    if p < p' { RankIsInjective(lists[n], p, p'); }
  }

  lemma PartnersServedIff(nodes: seq<int>, lists: Lists, pairs: seq<Pair>, lists': Lists, n: int, p: nat, m: int,
                          q: nat)
    requires Valid(nodes, lists) && ServeInv(nodes, lists, pairs, lists') && Done(nodes, lists')
    requires ArePartners(lists, n, p, m, q)
    ensures IsServed(lists, pairs, n, p) <==> !Behind(lists, n, p) || !Behind(lists, m, q)
  {
    var k, j := lists[n][p].GetKey(), Rank(lists[n], p);
    PartnersAreSymmetric(nodes, lists, n, p, m, q);
    PartnersAreSymmetric(nodes, lists, m, q, n, p);
    LeftOnBothSides(nodes, lists, pairs, lists', k);
    if !Behind(lists, n, p) {
      FreeIsServed(nodes, lists, pairs, lists', n, p);
    } else if !Behind(lists, m, q) {
      FreeIsServed(nodes, lists, pairs, lists', m, q);
    } else if IsServed(lists, pairs, n, p) {
      assert FreeOnOneSide(lists, pairs, k);
      if IsFree(lists, k, j) {
        FreeIsNotBehind(nodes, lists, n, p);
      } else {
        FreeIsNotBehind(nodes, lists, m, q);
      }
    }
  }

  lemma ServedHasPartner(nodes: seq<int>, lists: Lists, pairs: seq<Pair>, lists': Lists, n: int, p: nat)
    returns (m: int, q: nat)
    requires Valid(nodes, lists) && ServeInv(nodes, lists, pairs, lists')
    requires n in lists && p < |lists[n]| && IsServed(lists, pairs, n, p)
    ensures ArePartners(lists, n, p, m, q)
  {
    var k := lists[n][p].GetKey();
    assert lists[n][p] in lists[n];
    LeftOnBothSides(nodes, lists, pairs, lists', k);
    m := k.otherNode;
    q := PositionOf(lists[m], k.Opposite(), Rank(lists[n], p));
    OppositeIsKey(lists[n][p], lists[m][q]);
  }

  /** Exactly which requests `serve_all_requests` serves: those with a partner, the opposite
      request with equally many of its key before it, such that one of the two is behind no
      hopeless request. */
  lemma ServedIff(nodes: seq<int>, lists: Lists, pairs: seq<Pair>, lists': Lists, n: int, p: nat)
    requires Valid(nodes, lists) && Serves(nodes, lists, pairs, lists') && Done(nodes, lists')
    requires n in lists && p < |lists[n]|
    ensures IsServed(lists, pairs, n, p) <==>
            exists m, q: nat :: ArePartners(lists, n, p, m, q) && (!Behind(lists, n, p) || !Behind(lists, m, q))
  {
    ServesKeeps(nodes, lists, pairs, lists');
    if IsServed(lists, pairs, n, p) {
      var m, q := ServedHasPartner(nodes, lists, pairs, lists', n, p);
      PartnersServedIff(nodes, lists, pairs, lists', n, p, m, q);
    }
    forall m, q: nat | ArePartners(lists, n, p, m, q) && (!Behind(lists, n, p) || !Behind(lists, m, q))
      ensures IsServed(lists, pairs, n, p)
    {
      PartnersServedIff(nodes, lists, pairs, lists', n, p, m, q);
    }
  }

  // ----- what is stuck -----

  ghost predicate HasOpposites(lists: Lists) {
    exists n, i: nat, m, j: nat :: n in lists && i < |lists[n]| && m in lists && j < |lists[m]|
      && lists[n][i].IsOpposite(lists[m][j])
  }

  /** Two partners that both wait behind a hopeless request. */
  ghost predicate HasBlockedPartners(lists: Lists) {
    exists n, p: nat, m, q: nat :: ArePartners(lists, n, p, m, q) && Behind(lists, n, p) && Behind(lists, m, q)
  }

  lemma OppositesPend(nodes: seq<int>, lists: Lists, n: int, i: nat, m: int, j: nat)
    requires Valid(nodes, lists)
    requires n in lists && i < |lists[n]| && m in lists && j < |lists[m]| && lists[n][i].IsOpposite(lists[m][j])
    ensures PendingOf(lists, lists[n][i].GetKey()) != [] && PendingOf(lists, lists[n][i].GetKey().Opposite()) != []
  {
    assert lists[n][i] in lists[n] && lists[m][j] in lists[m];
    OppositeIsKey(lists[n][i], lists[m][j]);
    RankIsBounded(lists[n], i);
    RankIsBounded(lists[m], j);
  }

  /** The first requests that are left of a key and of its opposite are partners. */
  lemma NextPartners(lists: Lists, k: Key, c: nat) returns (p: nat, q: nat)
    requires c < |PendingOf(lists, k)| && c < |PendingOf(lists, k.Opposite())|
    ensures k.node in lists && p < |lists[k.node]| && lists[k.node][p].GetKey() == k && Rank(lists[k.node], p) == c
    ensures ArePartners(lists, k.node, p, k.otherNode, q)
  {
    p := PositionOf(lists[k.node], k, c);
    q := PositionOf(lists[k.otherNode], k.Opposite(), c);
    OppositeIsKey(lists[k.node][p], lists[k.otherNode][q]);
  }

  lemma StuckWereBlocked(nodes: seq<int>, lists: Lists, pairs: seq<Pair>, lists': Lists, k: Key)
    requires Valid(nodes, lists) && ServeInv(nodes, lists, pairs, lists') && Done(nodes, lists')
    requires PendingOf(lists', k) != [] && PendingOf(lists', k.Opposite()) != []
    ensures HasBlockedPartners(lists)
  {
    LeftOnBothSides(nodes, lists, pairs, lists', k);
    var p, q := NextPartners(lists, k, |PairsOf(pairs, k)|);
    PartnersServedIff(nodes, lists, pairs, lists', k.node, p, k.otherNode, q);
  }

  lemma BlockedAreStuck(nodes: seq<int>, lists: Lists, pairs: seq<Pair>, lists': Lists, n: int, p: nat, m: int, q: nat)
    requires Valid(nodes, lists) && ServeInv(nodes, lists, pairs, lists') && Done(nodes, lists')
    requires ArePartners(lists, n, p, m, q) && Behind(lists, n, p) && Behind(lists, m, q)
    ensures HasOpposites(lists')
  {
    var k := lists[n][p].GetKey();
    PartnersAreSymmetric(nodes, lists, n, p, m, q);
    PartnersServedIff(nodes, lists, pairs, lists', n, p, m, q);
    RankIsBounded(lists[n], p);
    RankIsBounded(lists[m], q);
    LeftOnBothSides(nodes, lists, pairs, lists', k);
    var i := HasRequestOf(lists', k);
    var j := HasRequestOf(lists', k.Opposite());
    OppositeIsKey(lists'[n][i], lists'[k.otherNode][j]);
  }

  /** Serving leaves opposite requests behind exactly if, in the lists it starts from, two
      partners both wait behind a request without a partner. */
  lemma StuckIffBlocked(nodes: seq<int>, lists: Lists, pairs: seq<Pair>, lists': Lists)
    requires Valid(nodes, lists) && Serves(nodes, lists, pairs, lists') && Done(nodes, lists')
    ensures HasOpposites(lists') <==> HasBlockedPartners(lists)
  {
    ServesKeeps(nodes, lists, pairs, lists');
    if HasOpposites(lists') {
      var n, i: nat, m, j: nat :| n in lists' && i < |lists'[n]| && m in lists' && j < |lists'[m]|
        && lists'[n][i].IsOpposite(lists'[m][j]);
      OppositesPend(nodes, lists', n, i, m, j);
      StuckWereBlocked(nodes, lists, pairs, lists', lists'[n][i].GetKey());
    }
    if HasBlockedPartners(lists) {
      var n, p: nat, m, q: nat :| ArePartners(lists, n, p, m, q) && Behind(lists, n, p) && Behind(lists, m, q);
      BlockedAreStuck(nodes, lists, pairs, lists', n, p, m, q);
    }
  }
}
