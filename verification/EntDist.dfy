/** Matching of entanglement requests (qoala/sim/entdist/entdist.py:29-50, 215-297). */
module EntDist {
  import opened Tasks

  /** One side of a pair: a process on a node, and the process it shares the pair with. */
  datatype Key = Key(node: int, pid: int, otherNode: int, otherPid: int) {
    function Opposite(): Key {
      Key(otherNode, otherPid, node, pid)
    }
  }

  datatype Request = Request(localNode: int, remoteNode: int, qubit: int, localPid: int, remotePid: int) {
    function GetKey(): Key {
      Key(localNode, localPid, remoteNode, remotePid)
    }

    predicate IsOpposite(req: Request) {
      && localNode == req.remoteNode && remoteNode == req.localNode
      && localPid == req.remotePid && remotePid == req.localPid
    }
  }

  /** The two requests that a joint request serves together. */
  datatype Pair = Pair(local: Request, remote: Request)

  type Lists = map<int, seq<Request>>

  ghost predicate Valid(nodes: seq<int>, lists: Lists) {
    && NoDup(nodes) && Elements(nodes) == lists.Keys
    && forall n :: n in lists ==> forall r :: r in lists[n] ==>
         r.localNode == n && r.remoteNode in lists && r.remoteNode != n
  }

  predicate Accepts(lists: Lists, r: Request) {
    r.localNode in lists && r.remoteNode in lists && r.remoteNode != r.localNode
  }

  // ----- the specification -----

  function FirstOpposite(requests: seq<Request>, r: Request): (k: Option<nat>)
    ensures k.None? ==> forall i :: 0 <= i < |requests| ==> !r.IsOpposite(requests[i])
    ensures k.Some? ==> k.value < |requests| && r.IsOpposite(requests[k.value])
    ensures k.Some? ==> forall i :: 0 <= i < k.value ==> !r.IsOpposite(requests[i])
  {
    if requests == [] then None
    else if r.IsOpposite(requests[0]) then Some(0)
    else
      var rest := FirstOpposite(requests[1..], r);
      if rest.None? then None else Some(rest.value + 1)
  }

  /** The position of the partner of the first request of node `n`. */
  function Partner(lists: Lists, n: int): Option<nat>
    requires n in lists && (lists[n] != [] ==> lists[n][0].remoteNode in lists)
  {
    if lists[n] == [] then None else FirstOpposite(lists[lists[n][0].remoteNode], lists[n][0])
  }

  ghost predicate Servable(lists: Lists, n: int) {
    && n in lists && lists[n] != [] && lists[n][0].remoteNode in lists
    && Partner(lists, n).Some?
  }

  function Without(s: seq<Request>, k: nat): (r: seq<Request>)
    requires k < |s|
    ensures |r| == |s| - 1
  {
    s[..k] + s[k + 1..]
  }

  /** Node `n` is the first, in registration order, whose first request has a partner. */
  ghost predicate IsFirstServable(nodes: seq<int>, lists: Lists, i: nat) {
    && i < |nodes| && Servable(lists, nodes[i])
    && forall j :: 0 <= j < i ==> !Servable(lists, nodes[j])
  }

  ghost function Served(lists: Lists, n: int): Lists
    requires Servable(lists, n)
  {
    var remote := lists[n][0].remoteNode;
    lists[n := lists[n][1..]][remote := Without(lists[remote], Partner(lists, n).value)]
  }

  ghost function PairAt(lists: Lists, n: int): Pair
    requires Servable(lists, n)
  {
    Pair(lists[n][0], lists[lists[n][0].remoteNode][Partner(lists, n).value])
  }

  /** The outcome of `get_next_joint_request`. */
  ghost predicate NextJoint(nodes: seq<int>, lists: Lists, pair: Option<Pair>, lists': Lists) {
    if pair.None? then lists' == lists && forall n :: n in nodes ==> !Servable(lists, n)
    else exists i: nat :: IsFirstServable(nodes, lists, i) && pair == Some(PairAt(lists, nodes[i])) && lists' == Served(lists, nodes[i])
  }

  /** Serving one joint request after the other turns `lists` into `lists'`. */
  ghost predicate Serves(nodes: seq<int>, lists: Lists, pairs: seq<Pair>, lists': Lists) {
    if pairs == [] then lists' == lists
    else
      var front, last := pairs[..|pairs| - 1], pairs[|pairs| - 1];
      exists between :: Serves(nodes, lists, front, between) && NextJoint(nodes, between, Some(last), lists')
  }

  ghost function Pending(nodes: seq<int>, lists: Lists): nat
    requires Elements(nodes) <= lists.Keys
  {
    if nodes == [] then 0
    else
      assert nodes[0] in Elements(nodes);
      assert forall x :: x in nodes[1..] ==> x in nodes;
      |lists[nodes[0]]| + Pending(nodes[1..], lists)
  }

  lemma OppositeIsKey(a: Request, b: Request)
    ensures a.IsOpposite(b) <==> b.GetKey() == a.GetKey().Opposite()
  {
  }

  // ----- the class -----

  class EntDist {
    const nodes: seq<int>
    var requests: Lists

    ghost predicate IsValid()
      reads this
    {
      Valid(nodes, requests)
    }

    constructor (nodes: seq<int>)
      requires NoDup(nodes)
      ensures this.nodes == nodes && IsValid() && forall n :: n in nodes ==> requests[n] == []
    {
      this.nodes := nodes;
      requests := map n | n in Elements(nodes) :: [];
    }

    /** `ok` is false for the ValueErrors. */
    method PutRequest(r: Request) returns (ok: bool)
      requires IsValid()
      modifies this
      ensures IsValid() && ok == Accepts(old(requests), r)
      ensures ok <==> r.localNode in old(requests) && r.remoteNode in old(requests) && r.remoteNode != r.localNode
      ensures requests == if ok then old(requests)[r.localNode := old(requests)[r.localNode] + [r]] else old(requests)
    {
      if r.localNode !in requests || r.remoteNode !in requests || r.remoteNode == r.localNode {
        return false;
      }
      requests := requests[r.localNode := requests[r.localNode] + [r]];
      ok := true;
    }

    method GetRemoteRequestFor(local: Request) returns (index: Option<nat>)
      requires local.remoteNode in requests
      ensures index == FirstOpposite(requests[local.remoteNode], local)
    {
      var remote := requests[local.remoteNode];
      for i := 0 to |remote|
        invariant forall j :: 0 <= j < i ==> !local.IsOpposite(remote[j])
      {
        if local.IsOpposite(remote[i]) {
          return Some(i);
        }
      }
      index := None;
    }

    method GetNextJointRequest() returns (pair: Option<Pair>)
      requires IsValid()
      modifies this
      ensures IsValid() && NextJoint(nodes, old(requests), pair, requests)
    {
      ghost var before := requests;
      for i := 0 to |nodes|
        invariant requests == before
        invariant forall j :: 0 <= j < i ==> !Servable(before, nodes[j])
      {
        var n := nodes[i];
        assert n in Elements(nodes);
        if |requests[n]| == 0 {
          continue;
        }
        var local := requests[n][0];
        assert local in requests[n];
        requests := requests[n := requests[n][1..]];
        var index := GetRemoteRequestFor(local);
        assert requests[local.remoteNode] == before[local.remoteNode];
        if index.Some? {
          var remote := requests[local.remoteNode][index.value];
          requests := requests[local.remoteNode := Without(requests[local.remoteNode], index.value)];
          assert IsFirstServable(nodes, before, i);
          ServedIsValid(nodes, before, n);
          return Some(Pair(local, remote));
        } else {
          PutBack(before, n);
          requests := requests[n := [local] + requests[n]];
        }
      }
      pair := None;
    }

    /** Each round serves one joint request; delivering the pair leaves the lists alone. */
    method ServeAllRequests() returns (pairs: seq<Pair>)
      requires IsValid()
      modifies this
      ensures IsValid() && forall n :: n in nodes ==> !Servable(requests, n)
      ensures Serves(nodes, old(requests), pairs, requests)
      ensures Pending(nodes, requests) + 2 * |pairs| == Pending(nodes, old(requests))
      ensures requests.Keys == old(requests).Keys && forall n :: n in requests ==> |requests[n]| <= |old(requests)[n]|
    {
      pairs := [];
      ghost var before := requests;
      var pair := GetNextJointRequest();
      if pair.Some? {
        JointTakesTwo(nodes, before, pair, requests);
      }
      while pair.Some?
        invariant IsValid()
        invariant Serves(nodes, old(requests), pairs, before) && NextJoint(nodes, before, pair, requests)
        invariant Pending(nodes, requests) + 2 * |pairs| + (if pair.Some? then 2 else 0) == Pending(nodes, old(requests))
        invariant requests.Keys == old(requests).Keys && forall n :: n in requests ==> |requests[n]| <= |old(requests)[n]|
        decreases Pending(nodes, requests), if pair.Some? then 1 else 0
      {
        ServesOneMore(nodes, old(requests), pairs, before, pair.value, requests);
        pairs := pairs + [pair.value];
        before := requests;
        pair := GetNextJointRequest();
        if pair.Some? {
          JointTakesTwo(nodes, before, pair, requests);
        }
      }
    }
  }

  lemma ServesOneMore(nodes: seq<int>, lists: Lists, pairs: seq<Pair>, between: Lists, pair: Pair, lists': Lists)
    requires Serves(nodes, lists, pairs, between) && NextJoint(nodes, between, Some(pair), lists')
    ensures Serves(nodes, lists, pairs + [pair], lists')
  {
    assert (pairs + [pair])[..|pairs|] == pairs;
  }

  lemma PutBack(lists: Lists, n: int)
    requires n in lists && lists[n] != []
    ensures var taken := lists[n := lists[n][1..]]; taken[n := [lists[n][0]] + taken[n]] == lists
  {
    assert [lists[n][0]] + lists[n][1..] == lists[n];
  }

  // ----- conservation -----

  lemma ServedIsValid(nodes: seq<int>, lists: Lists, n: int)
    requires Valid(nodes, lists) && Servable(lists, n)
    ensures Valid(nodes, Served(lists, n))
  {
    var remote := lists[n][0].remoteNode;
    var lists' := Served(lists, n);
    assert lists[n][0] in lists[n];
    assert lists'.Keys == lists.Keys;
    forall m | m in lists' ensures forall r :: r in lists'[m] ==> r in lists[m] {
    }
  }

  lemma {:induction false} PendingSame(nodes: seq<int>, a: Lists, b: Lists)
    requires Elements(nodes) <= a.Keys && Elements(nodes) <= b.Keys
    requires forall n :: n in nodes ==> a[n] == b[n]
    ensures Pending(nodes, a) == Pending(nodes, b)
  {
    if nodes == [] {
    } else {
      var n := nodes[0];
      assert n in nodes && a[n] == b[n];
      assert forall x :: x in nodes[1..] ==> x in nodes;
      PendingSame(nodes[1..], a, b);
    }
  }

  lemma {:induction false} PendingUpdate(nodes: seq<int>, lists: Lists, n: int, s: seq<Request>)
    requires NoDup(nodes) && Elements(nodes) <= lists.Keys && n in nodes
    ensures Pending(nodes, lists[n := s]) == Pending(nodes, lists) - |lists[n]| + |s|
  {
    var rest := nodes[1..];
    assert nodes[0] in Elements(nodes);
    assert forall x :: x in rest ==> x in nodes;
    if n == nodes[0] {
      assert n !in rest;
      PendingSame(rest, lists, lists[n := s]);
    } else {
      PendingUpdate(rest, lists, n, s);
    }
  }

  lemma ServedTakesTwo(nodes: seq<int>, lists: Lists, n: int)
    requires Valid(nodes, lists) && Servable(lists, n)
    ensures Elements(nodes) <= Served(lists, n).Keys && Pending(nodes, Served(lists, n)) + 2 == Pending(nodes, lists)
  {
    var remote := lists[n][0].remoteNode;
    assert lists[n][0] in lists[n];
    assert n in Elements(nodes) && remote in Elements(nodes);
    PendingUpdate(nodes, lists, n, lists[n][1..]);
    PendingUpdate(nodes, lists[n := lists[n][1..]], remote, Without(lists[remote], Partner(lists, n).value));
  }

  /** A joint request takes two requests away, so serving all of them comes to an end. */
  lemma JointTakesTwo(nodes: seq<int>, lists: Lists, pair: Option<Pair>, lists': Lists)
    requires Valid(nodes, lists) && NextJoint(nodes, lists, pair, lists') && pair.Some?
    ensures Elements(nodes) <= lists'.Keys && Pending(nodes, lists') + 2 == Pending(nodes, lists)
    ensures lists'.Keys == lists.Keys && forall n :: n in lists ==> |lists'[n]| <= |lists[n]|
  {
    var i: nat :| IsFirstServable(nodes, lists, i) && pair == Some(PairAt(lists, nodes[i])) && lists' == Served(lists, nodes[i]);
    ServedTakesTwo(nodes, lists, nodes[i]);
  }
}
