/** Paths, ancestors and acyclicity of a task dictionary. */
module Reachability {
  import opened Tasks

  predicate Edge(m: TaskMap, a: int, b: int) {
    a in m && b in m && a in m[b].preds
  }

  /** A path lists its tasks from the earliest to the latest. */
  ghost predicate IsPath(m: TaskMap, p: seq<int>) {
    && |p| >= 1
    && (forall i :: 0 <= i < |p| ==> p[i] in m)
    && (forall i, j {:trigger p[i], p[j]} :: 0 <= i && j == i + 1 && j < |p| ==> Edge(m, p[i], p[j]))
  }

  ghost predicate PathFromTo(m: TaskMap, p: seq<int>, a: int, b: int) {
    IsPath(m, p) && p[0] == a && p[|p| - 1] == b
  }

  ghost predicate Ancestor(m: TaskMap, a: int, b: int) {
    exists p :: PathFromTo(m, p, a, b) && |p| >= 2
  }

  ghost predicate Acyclic(m: TaskMap) {
    forall t :: t in m ==> !Ancestor(m, t, t)
  }

  /** Every predecessor is a task of the same dictionary. */
  ghost predicate Closed(m: TaskMap) {
    forall t :: t in m ==> m[t].preds <= m.Keys
  }

  ghost function Ancestors(m: TaskMap, t: int): set<int> {
    set x | x in m && Ancestor(m, x, t)
  }

  lemma EdgePath(m: TaskMap, a: int, b: int)
    requires Edge(m, a, b)
    ensures PathFromTo(m, [a, b], a, b)
    ensures Ancestor(m, a, b)
  {
    assert PathFromTo(m, [a, b], a, b);
  }

  lemma JoinPaths(m: TaskMap, p: seq<int>, q: seq<int>)
    requires IsPath(m, p) && IsPath(m, q) && p[|p| - 1] == q[0]
    ensures IsPath(m, p + q[1..])
    ensures (p + q[1..])[0] == p[0]
    ensures (p + q[1..])[|p + q[1..]| - 1] == q[|q| - 1]
  {
    var r := p + q[1..];
    forall i, j {:trigger r[i], r[j]} | 0 <= i && j == i + 1 && j < |r| ensures Edge(m, r[i], r[j]) {
      if j < |p| {
        assert r[i] == p[i] && r[j] == p[j];
      } else {
        assert r[i] == q[i + 1 - |p|] && r[j] == q[j + 1 - |p|];
      }
    }
  }

  lemma ExtendPath(m: TaskMap, p: seq<int>, t: int)
    requires IsPath(m, p) && Edge(m, p[|p| - 1], t)
    ensures IsPath(m, p + [t])
    ensures (p + [t])[0] == p[0] && (p + [t])[|p|] == t
  {
    var r := p + [t];
    forall i, j {:trigger r[i], r[j]} | 0 <= i && j == i + 1 && j < |r| ensures Edge(m, r[i], r[j]) {
      assert r[i] == p[i];
    }
  }

  lemma SubPath(m: TaskMap, p: seq<int>, i: nat, j: nat)
    requires IsPath(m, p) && i < j <= |p|
    ensures IsPath(m, p[i..j])
  {
    var r := p[i..j];
    forall k, l {:trigger r[k], r[l]} | 0 <= k && l == k + 1 && l < |r| ensures Edge(m, r[k], r[l]) {
      assert r[k] == p[i + k] && r[l] == p[i + l];
    }
  }

  lemma AncestorTransitive(m: TaskMap, a: int, b: int, c: int)
    requires Ancestor(m, a, b) && Ancestor(m, b, c)
    ensures Ancestor(m, a, c)
  {
    var p :| PathFromTo(m, p, a, b) && |p| >= 2;
    var q :| PathFromTo(m, q, b, c) && |q| >= 2;
    JoinPaths(m, p, q);
    assert PathFromTo(m, p + q[1..], a, c);
  }

  /** A task has strictly more ancestors than any of its predecessors: the measure
      on which the recursions over a task graph stop. */
  lemma AncestorsShrink(m: TaskMap, t: int)
    requires Acyclic(m) && Closed(m) && t in m
    ensures forall p :: p in m[t].preds ==> Ancestors(m, p) < Ancestors(m, t)
  {
    forall p | p in m[t].preds ensures Ancestors(m, p) < Ancestors(m, t) {
      EdgePath(m, p, t);
      forall x | x in Ancestors(m, p) ensures x in Ancestors(m, t) {
        AncestorTransitive(m, x, p, t);
      }
      assert p in Ancestors(m, t) && p !in Ancestors(m, p);
    }
  }

  /** What holds of every predecessor of a member holds of every ancestor. */
  lemma {:induction false} ClosedUnderPath(m: TaskMap, s: set<int>, p: seq<int>)
    requires IsPath(m, p) && p[|p| - 1] in s
    requires forall t :: t in s && t in m ==> m[t].preds <= s
    ensures forall i :: 0 <= i < |p| ==> p[i] in s
  {
    if |p| == 1 {
    } else {
      var n := |p| - 1;
      var q := p[..n];
      SubPath(m, p, 0, n);
      assert p[0..n] == q;
      assert Edge(m, p[n - 1], p[n]);
      ClosedUnderPath(m, s, q);
      forall i | 0 <= i < |p| ensures p[i] in s {
        if i < n { assert q[i] == p[i]; }
      }
    }
  }

  lemma ClosedUnderAncestor(m: TaskMap, s: set<int>, a: int, b: int)
    requires Ancestor(m, a, b) && b in s
    requires forall t :: t in s && t in m ==> m[t].preds <= s
    ensures a in s
  {
    var p :| PathFromTo(m, p, a, b) && |p| >= 2;
    ClosedUnderPath(m, s, p);
  }

  /** A non-empty set of tasks of an acyclic graph has a member with no predecessor in it. */
  lemma {:induction false} MinimalMember(m: TaskMap, s: set<int>, t: int) returns (r: int)
    requires Acyclic(m) && Closed(m) && s <= m.Keys && t in s
    ensures r in s && forall p :: p in m[r].preds ==> p !in s
    decreases Ancestors(m, t)
  {
    if p :| p in m[t].preds && p in s {
      AncestorsShrink(m, t);
      r := MinimalMember(m, s, p);
    } else {
      r := t;
    }
  }

  // ----- parts of a larger dictionary -----

  lemma PathStaysIn(m: TaskMap, big: TaskMap, p: seq<int>)
    requires Closed(m) && (forall t :: t in m ==> t in big && big[t].preds == m[t].preds)
    requires IsPath(big, p) && p[|p| - 1] in m
    ensures IsPath(m, p)
  {
    ClosedUnderPath(big, m.Keys, p);
    forall i, j {:trigger p[i], p[j]} | 0 <= i && j == i + 1 && j < |p| ensures Edge(m, p[i], p[j]) {
      assert Edge(big, p[i], p[j]);
    }
  }

  lemma AncestorStaysIn(m: TaskMap, big: TaskMap, a: int, b: int)
    requires Closed(m) && (forall t :: t in m ==> t in big && big[t].preds == m[t].preds) && b in m
    ensures Ancestor(big, a, b) <==> Ancestor(m, a, b)
  {
    if Ancestor(big, a, b) {
      var p :| PathFromTo(big, p, a, b) && |p| >= 2;
      PathStaysIn(m, big, p);
      assert PathFromTo(m, p, a, b);
    }
    if Ancestor(m, a, b) {
      var p :| PathFromTo(m, p, a, b) && |p| >= 2;
      forall i, j {:trigger p[i], p[j]} | 0 <= i && j == i + 1 && j < |p| ensures Edge(big, p[i], p[j]) {
        assert Edge(m, p[i], p[j]);
      }
      assert PathFromTo(big, p, a, b);
    }
  }

  lemma AncestorGrows(m: TaskMap, big: TaskMap, a: int, b: int)
    requires forall t :: t in m ==> t in big && m[t].preds <= big[t].preds
    ensures Ancestor(m, a, b) ==> Ancestor(big, a, b)
  {
    if Ancestor(m, a, b) {
      var p :| PathFromTo(m, p, a, b) && |p| >= 2;
      forall i, j {:trigger p[i], p[j]} | 0 <= i && j == i + 1 && j < |p| ensures Edge(big, p[i], p[j]) {
        assert Edge(m, p[i], p[j]);
      }
      assert PathFromTo(big, p, a, b);
    }
  }

  /** Predecessors all have a lower rank. */
  ghost predicate Ranked(m: TaskMap, rank: map<int, int>) {
    m.Keys <= rank.Keys && forall t :: t in m ==> forall x :: x in m[t].preds && x in m ==> rank[x] < rank[t]
  }

  lemma {:induction false} RankRises(m: TaskMap, rank: map<int, int>, p: seq<int>)
    requires Ranked(m, rank)
    requires IsPath(m, p) && |p| >= 2
    ensures p[0] in rank && p[|p| - 1] in rank && rank[p[0]] < rank[p[|p| - 1]]
  {
    var n := |p| - 1;
    assert Edge(m, p[n - 1], p[n]);
    if n > 1 {
      SubPath(m, p, 0, n);
      RankRises(m, rank, p[0..n]);
    }
  }

  lemma RankedIsAcyclic(m: TaskMap, rank: map<int, int>)
    requires Ranked(m, rank)
    ensures Acyclic(m)
  {
    forall t | t in m && Ancestor(m, t, t) ensures false {
      var p :| PathFromTo(m, p, t, t) && |p| >= 2;
      RankRises(m, rank, p);
    }
  }

  /** Tasks `h` behind a closed dictionary `m`: the only new precedences go from `m` to `h`. */
  ghost predicate Behind(m: TaskMap, h: TaskMap, big: TaskMap) {
    && Closed(m) && m.Keys !! h.Keys && big.Keys == m.Keys + h.Keys
    && (forall t :: t in m ==> big[t].preds == m[t].preds)
    && (forall t :: t in h ==> big[t].preds - m.Keys <= h[t].preds)
  }

  lemma BehindIsAcyclic(m: TaskMap, h: TaskMap, big: TaskMap)
    requires Behind(m, h, big) && Acyclic(m) && Acyclic(h)
    ensures Acyclic(big)
  {
    forall t | t in big && Ancestor(big, t, t) ensures false {
      if t in m {
        AncestorStaysIn(m, big, t, t);
      } else {
        var p :| PathFromTo(big, p, t, t) && |p| >= 2;
        CycleBehind(m, h, big, p, t);
      }
    }
  }

  lemma CycleBehind(m: TaskMap, h: TaskMap, big: TaskMap, p: seq<int>, t: int)
    requires Behind(m, h, big) && PathFromTo(big, p, t, t) && |p| >= 2 && t in h
    ensures Ancestor(h, t, t)
  {
    forall i | 0 <= i < |p| ensures p[i] in h {
      var q := p[0..i + 1];
      SubPath(big, p, 0, i + 1);
      assert q[0] == p[0] && q[|q| - 1] == p[i];
      if p[i] in m {
        ClosedUnderPath(big, m.Keys, q);
      }
    }
    forall i, j {:trigger p[i], p[j]} | 0 <= i && j == i + 1 && j < |p| ensures Edge(h, p[i], p[j]) {
      assert Edge(big, p[i], p[j]);
    }
    assert PathFromTo(h, p, t, t);
  }
}
