/** In every run of the two cores, the schedulers find something to do or to wait for. */
module SchedulerRuns {
  import opened Tasks
  import opened Reachability
  import opened GraphOps
  import opened TwoCore
  import opened TwoCoreSafety
  import opened EdfStatus

  // ----- the graph of a core -----

  lemma {:induction false} EdgesWithin(m: TaskMap, big: TaskMap, p: seq<int>)
    requires IsPath(m, p) && |p| >= 2 && forall a, b :: Edge(m, a, b) ==> Ancestor(big, a, b)
    ensures Ancestor(big, p[0], p[|p| - 1])
  {
    var n := |p| - 1;
    assert Edge(m, p[n - 1], p[n]);
    if n > 1 {
      SubPath(m, p, 0, n);
      EdgesWithin(m, big, p[0..n]);
      AncestorTransitive(big, p[0], p[n - 1], p[n]);
    }
  }

  lemma WithinIsAcyclic(m: TaskMap, big: TaskMap)
    requires Acyclic(big) && m.Keys <= big.Keys && forall a, b :: Edge(m, a, b) ==> Ancestor(big, a, b)
    ensures Acyclic(m)
  {
    forall t | t in m ensures !Ancestor(m, t, t) {
      if Ancestor(m, t, t) {
        var p :| PathFromTo(m, p, t, t) && |p| >= 2;
        EdgesWithin(m, big, p);
      }
    }
  }

  lemma CoreEdge(m: TaskMap, proc: ProcessorType, v: View, order: seq<int>, c: Core, otherDone: set<int>, a: int,
                 b: int)
    requires Sound(m, proc, v) && CoreInv(v, order, c, otherDone) && b in c.graph.tasks && a in c.graph.tasks[b].preds
    ensures a in c.graph.tasks && Ancestor(m, a, b)
  {
    assert TaskInv(v[b], c.graph.tasks[b], Elements(c.finished), otherDone);
    assert a in v[b].preds && v[b].preds <= v.Keys;
  }

  lemma PolledEdge(vs: Views, s: System, proc: ProcessorType, a: int, b: int)
    requires Inv(vs, s) && b in Polled(s, proc).tasks && a in Polled(s, proc).tasks[b].preds
    ensures a in Polled(s, proc).tasks && Ancestor(s.full.tasks, a, b)
  {
    assert CoreOk(vs, s, proc);
    CoreEdge(s.full.tasks, proc, vs.Of(proc), s.full.order, s.Of(proc), Elements(s.Of(proc.Other()).finished), a, b);
  }

  lemma PickIsOrdered(order: seq<int>, keys: set<int>)
    requires NoDup(order) && keys <= Elements(order)
    ensures NoDup(Pick(order, keys)) && Elements(Pick(order, keys)) == keys
  {
    PickNoDup(order, keys);
  }

  lemma PolledIsOrdered(s: System, proc: ProcessorType)
    requires SystemInv(s)
    ensures Ordered(Polled(s, proc)) && Polled(s, proc).tasks.Keys <= s.full.tasks.Keys
  {
    StateFacts(s);
    assert CoreFacts(s, proc);
    PickIsOrdered(s.full.order, s.Of(proc).graph.tasks.Keys);
    assert Polled(s, proc).tasks.Keys == s.Of(proc).graph.tasks.Keys;
  }

  /** What is queued on a core is always a closed acyclic graph. */
  lemma PolledIsDag(s: System, proc: ProcessorType)
    requires SystemInv(s)
    ensures IsDag(Polled(s, proc))
  {
    var vs :| Inv(vs, s);
    var m := Polled(s, proc).tasks;
    PolledIsOrdered(s, proc);
    forall t | t in m ensures m[t].preds <= m.Keys {
      forall a | a in m[t].preds ensures a in m {
        PolledEdge(vs, s, proc, a, t);
      }
    }
    forall a, b | Edge(m, a, b) ensures Ancestor(s.full.tasks, a, b) {
      PolledEdge(vs, s, proc, a, b);
    }
    StateFacts(s);
    WithinIsAcyclic(m, s.full.tasks);
  }

  // ----- in every run -----

  /** The CPU scheduler never raises. */
  lemma CpuNeverRaisesInRuns(ss: seq<System>, es: seq<Event>, i: nat, input: CpuInput, useDeadlines: bool,
                             deterministic: bool, status: SchedulerStatus, raised: bool)
    requires IsRun(ss, es) && i < |ss|
    requires CpuUpdated(Polled(ss[i], CPU), input, useDeadlines, deterministic, status, raised)
    ensures !raised
  {
    RunKeeps(ss, es, i);
    PolledIsDag(ss[i], CPU);
    CpuNeverRaises(Polled(ss[i], CPU), input, useDeadlines, deterministic, status, raised);
  }

  /** Nor does the QPU scheduler, without a network schedule or with one that starts late
      enough for the bins of the tasks. */
  lemma QpuNeverRaisesInRuns(ss: seq<System>, es: seq<Event>, i: nat, input: QpuInput, useDeadlines: bool,
                             deterministic: bool, status: SchedulerStatus, raised: bool)
    requires IsRun(ss, es) && i < |ss| && BinsAreLate(Polled(ss[i], QPU), input)
    requires QpuUpdated(Polled(ss[i], QPU), input, useDeadlines, deterministic, status, raised)
    ensures !raised
  {
    RunKeeps(ss, es, i);
    PolledIsDag(ss[i], QPU);
    LateScheduleNeverRaises(Polled(ss[i], QPU), input, useDeadlines, deterministic, status, raised);
  }
}
