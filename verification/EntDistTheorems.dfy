/** What any sequence of requests and joint requests guarantees. */
module EntDistTheorems {
  import opened Tasks
  import opened EntDist

  // ----- what serving leaves -----

  /** When no joint request is found, an opposite pair can only be left behind other
      requests on both nodes. */
  lemma OppositesAreBehind(nodes: seq<int>, lists: Lists, n: int, i: nat, m: int, j: nat)
    requires Valid(nodes, lists) && forall x :: x in nodes ==> !Servable(lists, x)
    requires n in lists && i < |lists[n]| && m in lists && j < |lists[m]| && lists[n][i].IsOpposite(lists[m][j])
    ensures i > 0 && j > 0
  {
    var a, b := lists[n][i], lists[m][j];
    assert a in lists[n] && b in lists[m];
    assert n in Elements(nodes) && m in Elements(nodes);
    assert !Servable(lists, n) && !Servable(lists, m);
    assert b.IsOpposite(a);
  }

  /** So with at most one request per node, serving leaves no opposite pair. */
  lemma SingleRequestsAreAllServed(nodes: seq<int>, lists: Lists, n: int, i: nat, m: int, j: nat)
    requires Valid(nodes, lists) && forall x :: x in nodes ==> !Servable(lists, x)
    requires forall x :: x in lists ==> |lists[x]| <= 1
    requires n in lists && i < |lists[n]| && m in lists && j < |lists[m]|
    ensures !lists[n][i].IsOpposite(lists[m][j])
  {
    if lists[n][i].IsOpposite(lists[m][j]) {
      OppositesAreBehind(nodes, lists, n, i, m, j);
    }
  }

  /** Without that bound it can: here nodes 0 and 2 wait for each other, behind requests
      that nobody answers. */
  lemma OppositesCanBeStuck() returns (nodes: seq<int>, lists: Lists)
    ensures Valid(nodes, lists) && NextJoint(nodes, lists, None, lists)
    ensures 0 in lists && 2 in lists && |lists[0]| == 2 == |lists[2]| && lists[0][1].IsOpposite(lists[2][1])
  {
    nodes := [0, 1, 2, 3];
    lists := map[0 := [Request(0, 1, 0, 0, 0), Request(0, 2, 1, 0, 0)], 1 := [],
                 2 := [Request(2, 3, 0, 0, 0), Request(2, 0, 1, 0, 0)], 3 := []];
  }

  // ----- runs -----

  /** `puts` and `pairs` record what was requested and what was served. */
  datatype State = State(lists: Lists, puts: seq<Request>, pairs: seq<Pair>)

  datatype Event = Put(request: Request) | Joint

  ghost predicate Step(nodes: seq<int>, s: State, e: Event, s': State) {
    match e
    case Put(r) =>
      Accepts(s.lists, r) && s' == State(s.lists[r.localNode := s.lists[r.localNode] + [r]], s.puts + [r], s.pairs)
    case Joint =>
      exists pair :: NextJoint(nodes, s.lists, pair, s'.lists) && s'.puts == s.puts
                     && s'.pairs == s.pairs + if pair.Some? then [pair.value] else []
  }

  ghost predicate IsRun(nodes: seq<int>, ss: seq<State>, es: seq<Event>) {
    && |ss| == |es| + 1 && NoDup(nodes)
    && ss[0] == State(map n | n in Elements(nodes) :: [], [], [])
    && forall i :: 0 <= i < |es| ==> Step(nodes, ss[i], es[i], ss[i + 1])
  }

  function Of(requests: seq<Request>, k: Key): seq<Request> {
    if requests == [] then []
    else Of(requests[..|requests| - 1], k) + if requests[|requests| - 1].GetKey() == k then [requests[|requests| - 1]] else []
  }

  /** The pairs that served `k`, seen from its side. */
  function PairsOf(pairs: seq<Pair>, k: Key): seq<Pair> {
    if pairs == [] then []
    else
      var last := pairs[|pairs| - 1];
      PairsOf(pairs[..|pairs| - 1], k) +
      if last.local.GetKey() == k then [last]
      else if last.remote.GetKey() == k then [Pair(last.remote, last.local)]
      else []
  }

  function Locals(pairs: seq<Pair>): seq<Request> {
    if pairs == [] then [] else Locals(pairs[..|pairs| - 1]) + [pairs[|pairs| - 1].local]
  }

  lemma {:induction false} OfAppend(requests: seq<Request>, r: Request, k: Key)
    ensures Of(requests + [r], k) == Of(requests, k) + if r.GetKey() == k then [r] else []
  {
    assert (requests + [r])[..|requests|] == requests;
  }

  lemma {:induction false} OfConcat(a: seq<Request>, b: seq<Request>, k: Key)
    ensures Of(a + b, k) == Of(a, k) + Of(b, k)
  {
    if b == [] {
      assert a + b == a;
    } else {
      var front, last := b[..|b| - 1], b[|b| - 1];
      assert a + b == (a + front) + [last];
      OfConcat(a, front, k);
      OfAppend(a + front, last, k);
    }
  }

  lemma {:induction false} OfNone(requests: seq<Request>, k: Key)
    requires forall r :: r in requests ==> r.GetKey() != k
    ensures Of(requests, k) == []
  {
    if requests == [] {
    } else {
      var last := requests[|requests| - 1];
      assert last in requests;
      assert forall r :: r in requests[..|requests| - 1] ==> r in requests;
      OfNone(requests[..|requests| - 1], k);
    }
  }

  /** Taking away the first request of its key. */
  lemma FirstOfKeyRemoved(requests: seq<Request>, i: nat, k: Key)
    requires i < |requests| && forall j :: 0 <= j < i ==> requests[j].GetKey() != requests[i].GetKey()
    ensures Of(requests, k) ==
            (if requests[i].GetKey() == k then [requests[i]] else []) + Of(Without(requests, i), k)
  {
    var a, r, b := requests[..i], requests[i], requests[i + 1..];
    assert requests == (a + [r]) + b;
    OfConcat(a + [r], b, k);
    OfAppend(a, r, k);
    OfConcat(a, b, k);
    if r.GetKey() == k {
      forall x | x in a ensures x.GetKey() != k {
        var j :| 0 <= j < |a| && a[j] == x;
        assert requests[j] == x;
      }
      OfNone(a, k);
    }
  }

  // ----- first come, first served -----

  function PendingOf(lists: Lists, k: Key): seq<Request> {
    if k.node in lists then Of(lists[k.node], k) else []
  }

  /** Requests of one key are served in the order in which they were put. */
  ghost predicate InOrder(s: State, k: Key) {
    Of(s.puts, k) == Locals(PairsOf(s.pairs, k)) + PendingOf(s.lists, k)
  }

  ghost predicate AreOpposites(pairs: seq<Pair>) {
    forall p :: p in pairs ==> p.local.IsOpposite(p.remote) && p.local.localNode != p.remote.localNode
  }

  ghost predicate StateInv(nodes: seq<int>, s: State) {
    Valid(nodes, s.lists) && AreOpposites(s.pairs) && forall k :: InOrder(s, k)
  }

  lemma {:induction false} PairsAppend(pairs: seq<Pair>, p: Pair, k: Key)
    ensures PairsOf(pairs + [p], k) == PairsOf(pairs, k) +
              if p.local.GetKey() == k then [p] else if p.remote.GetKey() == k then [Pair(p.remote, p.local)] else []
  {
    assert (pairs + [p])[..|pairs|] == pairs;
  }

  lemma {:induction false} LocalsAppend(pairs: seq<Pair>, p: Pair)
    ensures Locals(pairs + [p]) == Locals(pairs) + [p.local]
  {
    assert (pairs + [p])[..|pairs|] == pairs;
  }

  lemma PutKeepsOrder(s: State, r: Request, k: Key)
    requires Accepts(s.lists, r) && InOrder(s, k)
    ensures InOrder(State(s.lists[r.localNode := s.lists[r.localNode] + [r]], s.puts + [r], s.pairs), k)
  {
    OfAppend(s.puts, r, k);
    OfAppend(s.lists[r.localNode], r, k);
  }

  /** How serving changes the pending requests of one key. */
  lemma ServedPending(nodes: seq<int>, lists: Lists, n: int, k: Key)
    requires Valid(nodes, lists) && Servable(lists, n)
    ensures var p := PairAt(lists, n);
            PendingOf(lists, k) ==
            (if p.local.GetKey() == k then [p.local] else if p.remote.GetKey() == k then [p.remote] else []) +
            PendingOf(Served(lists, n), k)
  {
    var p := PairAt(lists, n);
    var m := p.local.remoteNode;
    var i := Partner(lists, n).value;
    assert p.local in lists[n] && p.remote in lists[m];
    OppositeIsKey(p.local, p.remote);
    forall j | 0 <= j < i ensures lists[m][j].GetKey() != p.remote.GetKey() {
      OppositeIsKey(p.local, lists[m][j]);
    }
    FirstOfKeyRemoved(lists[m], i, k);
    FirstOfKeyRemoved(lists[n], 0, k);
    assert Without(lists[n], 0) == lists[n][1..];
    if k.node in lists && k.node != n && k.node != m {
      assert Served(lists, n)[k.node] == lists[k.node];
    }
  }

  lemma JointKeepsOrder(nodes: seq<int>, s: State, n: int, k: Key)
    requires Valid(nodes, s.lists) && Servable(s.lists, n) && InOrder(s, k)
    ensures InOrder(State(Served(s.lists, n), s.puts, s.pairs + [PairAt(s.lists, n)]), k)
  {
    var p := PairAt(s.lists, n);
    ServedPending(nodes, s.lists, n, k);
    OneMorePair(s.pairs, p, Of(s.puts, k), PendingOf(s.lists, k), PendingOf(Served(s.lists, n), k), k);
  }

  lemma OneMorePair(pairs: seq<Pair>, p: Pair, puts: seq<Request>, before: seq<Request>, after: seq<Request>, k: Key)
    requires puts == Locals(PairsOf(pairs, k)) + before
    requires before ==
             (if p.local.GetKey() == k then [p.local] else if p.remote.GetKey() == k then [p.remote] else []) + after
    ensures puts == Locals(PairsOf(pairs + [p], k)) + after
  {
    PairsAppend(pairs, p, k);
    var served := PairsOf(pairs, k);
    if p.local.GetKey() == k {
      PairServes(served, p, after);
    } else if p.remote.GetKey() == k {
      PairServes(served, Pair(p.remote, p.local), after);
    } else {
      assert served + [] == served && [] + after == after;
    }
  }

  lemma PairServes(served: seq<Pair>, p: Pair, after: seq<Request>)
    ensures Locals(served) + ([p.local] + after) == Locals(served + [p]) + after
  {
    LocalsAppend(served, p);
  }

  lemma JointIsOpposite(nodes: seq<int>, lists: Lists, n: int)
    requires Valid(nodes, lists) && Servable(lists, n)
    ensures var p := PairAt(lists, n); p.local.IsOpposite(p.remote) && p.local.localNode != p.remote.localNode
  {
    assert lists[n][0] in lists[n];
  }

  lemma PutKeeps(nodes: seq<int>, s: State, r: Request, s': State)
    requires StateInv(nodes, s) && Step(nodes, s, Put(r), s')
    ensures StateInv(nodes, s')
  {
    forall k ensures InOrder(s', k) {
      assert InOrder(s, k);
      PutKeepsOrder(s, r, k);
    }
    PutIsValid(nodes, s.lists, r);
  }

  lemma PutIsValid(nodes: seq<int>, lists: Lists, r: Request)
    requires Valid(nodes, lists) && Accepts(lists, r)
    ensures Valid(nodes, lists[r.localNode := lists[r.localNode] + [r]])
  {
    assert lists[r.localNode := lists[r.localNode] + [r]].Keys == lists.Keys;
  }

  lemma OppositesAppend(pairs: seq<Pair>, p: Pair)
    requires AreOpposites(pairs) && p.local.IsOpposite(p.remote) && p.local.localNode != p.remote.localNode
    ensures AreOpposites(pairs + [p])
  {
  }

  lemma ServingKeeps(nodes: seq<int>, s: State, n: int)
    requires StateInv(nodes, s) && Servable(s.lists, n)
    ensures StateInv(nodes, State(Served(s.lists, n), s.puts, s.pairs + [PairAt(s.lists, n)]))
  {
    ServedIsValid(nodes, s.lists, n);
    JointIsOpposite(nodes, s.lists, n);
    OppositesAppend(s.pairs, PairAt(s.lists, n));
    forall k ensures InOrder(State(Served(s.lists, n), s.puts, s.pairs + [PairAt(s.lists, n)]), k) {
      assert InOrder(s, k);
      JointKeepsOrder(nodes, s, n, k);
    }
  }

  /** A joint request either changes nothing or serves a node. */
  lemma JointCases(nodes: seq<int>, s: State, s': State) returns (n: Option<int>)
    requires Step(nodes, s, Joint, s')
    ensures n.None? ==> s' == s
    ensures n.Some? ==> Servable(s.lists, n.value)
                        && s' == State(Served(s.lists, n.value), s.puts, s.pairs + [PairAt(s.lists, n.value)])
  {
    var pair :| NextJoint(nodes, s.lists, pair, s'.lists) && s'.puts == s.puts
                && s'.pairs == s.pairs + if pair.Some? then [pair.value] else [];
    if pair.Some? {
      var i: nat :| IsFirstServable(nodes, s.lists, i) && pair == Some(PairAt(s.lists, nodes[i]))
                    && s'.lists == Served(s.lists, nodes[i]);
      n := Some(nodes[i]);
    } else {
      n := None;
      assert s'.pairs == s.pairs;
    }
  }

  lemma StepKeeps(nodes: seq<int>, s: State, e: Event, s': State)
    requires StateInv(nodes, s) && Step(nodes, s, e, s')
    ensures StateInv(nodes, s')
  {
    match e
    case Put(r) => PutKeeps(nodes, s, r, s');
    case Joint =>
      var n := JointCases(nodes, s, s');
      if n.Some? {
        ServingKeeps(nodes, s, n.value);
      }
  }

  lemma {:induction false} RunKeeps(nodes: seq<int>, ss: seq<State>, es: seq<Event>, i: nat)
    requires IsRun(nodes, ss, es) && i < |ss|
    ensures StateInv(nodes, ss[i])
    decreases i
  {
    if i == 0 {
      forall k ensures InOrder(ss[0], k) {
      }
    } else {
      RunKeeps(nodes, ss, es, i - 1);
      StepKeeps(nodes, ss[i - 1], es[i - 1], ss[i]);
    }
  }

  /** The pairs of a key and of its opposite are the same pairs, seen from the two sides. */
  lemma {:induction false} PairsMirror(pairs: seq<Pair>, k: Key, j: nat)
    requires AreOpposites(pairs)
    ensures |PairsOf(pairs, k)| == |PairsOf(pairs, k.Opposite())|
    ensures j < |PairsOf(pairs, k)| ==>
              PairsOf(pairs, k.Opposite())[j] == Pair(PairsOf(pairs, k)[j].remote, PairsOf(pairs, k)[j].local)
  {
    if pairs == [] {
    } else {
      var front, last := pairs[..|pairs| - 1], pairs[|pairs| - 1];
      assert last in pairs;
      assert forall p :: p in front ==> p in pairs;
      PairsMirror(front, k, j);
      OppositeIsKey(last.local, last.remote);
    }
  }

  lemma {:induction false} LocalsAt(pairs: seq<Pair>, j: nat)
    requires j < |pairs|
    ensures |Locals(pairs)| == |pairs| && Locals(pairs)[j] == pairs[j].local
  {
    if j < |pairs| - 1 {
      LocalsAt(pairs[..|pairs| - 1], j);
    } else if |pairs| > 1 {
      LocalsAt(pairs[..|pairs| - 1], 0);
    }
  }

  lemma LocalIsPut(s: State, k: Key, j: nat)
    requires InOrder(s, k) && j < |PairsOf(s.pairs, k)|
    ensures j < |Of(s.puts, k)| && PairsOf(s.pairs, k)[j].local == Of(s.puts, k)[j]
  {
    LocalsAt(PairsOf(s.pairs, k), j);
  }

  /** In every run, the k-th request that a process on one node is served is the k-th it
      put, and it is served together with the k-th opposite request from the other side. */
  lemma PairingIsFifo(nodes: seq<int>, ss: seq<State>, es: seq<Event>, i: nat, k: Key, j: nat)
    requires IsRun(nodes, ss, es) && i < |ss| && j < |PairsOf(ss[i].pairs, k)|
    ensures j < |Of(ss[i].puts, k)| && j < |Of(ss[i].puts, k.Opposite())|
    ensures PairsOf(ss[i].pairs, k)[j] == Pair(Of(ss[i].puts, k)[j], Of(ss[i].puts, k.Opposite())[j])
  {
    RunKeeps(nodes, ss, es, i);
    PairsMirror(ss[i].pairs, k, j);
    assert InOrder(ss[i], k) && InOrder(ss[i], k.Opposite());
    LocalIsPut(ss[i], k, j);
    LocalIsPut(ss[i], k.Opposite(), j);
  }

  /** Nothing is lost or made up: what was put is served or still pending, in order. */
  lemma RequestsAreConserved(nodes: seq<int>, ss: seq<State>, es: seq<Event>, i: nat, k: Key)
    requires IsRun(nodes, ss, es) && i < |ss|
    ensures Of(ss[i].puts, k) == Locals(PairsOf(ss[i].pairs, k)) + PendingOf(ss[i].lists, k)
  {
    RunKeeps(nodes, ss, es, i);
    assert InOrder(ss[i], k);
  }
}
