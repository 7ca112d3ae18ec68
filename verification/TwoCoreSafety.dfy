/** The invariant of the two cores is kept by every step. */
module TwoCoreSafety {
  import opened Tasks
  import opened Reachability
  import opened Projection
  import opened GraphOps
  import opened TwoCore

  // ----- the view of an uploaded graph -----

  ghost function Shapes(p: TaskMap): View {
    map t | t in p :: Shape(p[t].task, p[t].startTime, p[t].preds, p[t].extPreds, p[t].succs)
  }

  ghost function ViewOf(m: TaskMap, proc: ProcessorType): View
    requires Acyclic(m) && Closed(m)
  {
    Shapes(PartialTasks(m, proc))
  }

  lemma ViewIsConsistent(m: TaskMap, proc: ProcessorType)
    requires Acyclic(m) && Closed(m)
    ensures Consistent(ViewOf(m, proc))
  {
  }

  lemma ViewHasNames(m: TaskMap, proc: ProcessorType)
    requires Acyclic(m) && Closed(m)
    ensures Names(m, proc, ViewOf(m, proc))
  {
  }

  lemma ViewIsBounded(m: TaskMap, proc: ProcessorType)
    requires Acyclic(m) && Closed(m)
    ensures Bounded(ViewOf(m, proc))
  {
  }

  lemma ViewIsComplete(m: TaskMap, proc: ProcessorType)
    requires Acyclic(m) && Closed(m)
    ensures Covers(m, ViewOf(m, proc)) && AreImmediate(m, ViewOf(m, proc))
  {
  }

  lemma ViewNamesAncestors(m: TaskMap, proc: ProcessorType)
    requires Acyclic(m) && Closed(m)
    ensures AreAncestors(m, ViewOf(m, proc))
  {
    var v := ViewOf(m, proc);
    forall t, x | t in v && x in v[t].preds ensures Ancestor(m, x, t) {
      assert Edge(PartialTasks(m, proc), x, t);
      PartialEdgeIsPath(m, proc, x, t);
    }
  }

  lemma ViewIsSound(m: TaskMap, proc: ProcessorType)
    requires Acyclic(m) && Closed(m)
    ensures Sound(m, proc, ViewOf(m, proc))
  {
    ViewIsConsistent(m, proc);
    ViewHasNames(m, proc);
    ViewIsBounded(m, proc);
    ViewIsComplete(m, proc);
    ViewNamesAncestors(m, proc);
  }

  lemma ShapesMatch(p: TaskMap)
    ensures Shapes(p).Keys == p.Keys
    ensures forall t :: t in p ==> TaskInv(Shapes(p)[t], p[t], {}, {})
  {
  }

  // ----- uploading a graph with fresh ids -----

  lemma MergedIsDag(g: Graph, h: Graph)
    requires IsDag(g) && IsDag(h) && g.tasks.Keys !! h.tasks.Keys
    ensures IsDag(Merge(g, h))
  {
    var big := Merge(g, h);
    forall t | t in big.tasks ensures !Ancestor(big.tasks, t, t) {
      if t in g.tasks {
        AncestorStaysIn(g.tasks, big.tasks, t, t);
      } else {
        AncestorStaysIn(h.tasks, big.tasks, t, t);
      }
    }
    MergedIsOrdered(g, h);
  }

  lemma MergedNames(g: TaskMap, h: TaskMap, proc: ProcessorType, v: View, w: View)
    requires g.Keys !! h.Keys && Names(g, proc, v) && Names(h, proc, w)
    ensures Names(g + h, proc, v + w)
  {
    assert (v + w).Keys == TasksOn(g + h, proc);
  }

  lemma MergedPredsAreAncestors(g: TaskMap, h: TaskMap, v: View, w: View)
    requires Closed(g) && Closed(h) && g.Keys !! h.Keys && v.Keys <= g.Keys && w.Keys <= h.Keys
    requires AreAncestors(g, v) && AreAncestors(h, w)
    ensures AreAncestors(g + h, v + w)
  {
    forall t, x | t in v + w && x in (v + w)[t].preds ensures Ancestor(g + h, x, t) {
      if t in w {
        AncestorStaysIn(h, g + h, x, t);
      } else {
        AncestorStaysIn(g, g + h, x, t);
      }
    }
  }

  lemma MergedIsBounded(g: TaskMap, h: TaskMap, v: View, w: View)
    requires Closed(g) && Closed(h) && g.Keys !! h.Keys && v.Keys <= g.Keys && w.Keys <= h.Keys
    requires Bounded(v) && Bounded(w) && AreImmediate(g, v) && AreImmediate(h, w)
    ensures Bounded(v + w)
  {
    var u := v + w;
    forall t | t in u ensures u[t].preds <= u.Keys && u[t].extPreds !! u.Keys {
      if t in w {
        assert u[t] == w[t];
        assert forall x :: x in w[t].extPreds ==> x in h && x !in v;
      } else {
        assert u[t] == v[t];
        assert forall x :: x in v[t].extPreds ==> x in g && x !in w;
      }
    }
  }

  lemma MergedIsComplete(g: TaskMap, h: TaskMap, v: View, w: View)
    requires g.Keys !! h.Keys && v.Keys <= g.Keys && w.Keys <= h.Keys
    requires Covers(g, v) && Covers(h, w) && AreImmediate(g, v) && AreImmediate(h, w)
    ensures Covers(g + h, v + w) && AreImmediate(g + h, v + w)
  {
  }

  lemma MergedIsConsistent(v: View, w: View)
    requires Consistent(v) && Consistent(w) && v.Keys !! w.Keys && Bounded(v) && Bounded(w)
    ensures Consistent(v + w)
  {
  }

  lemma MergedIsSound(g: TaskMap, h: TaskMap, proc: ProcessorType, v: View, w: View)
    requires Closed(g) && Closed(h) && g.Keys !! h.Keys
    requires Sound(g, proc, v) && Sound(h, proc, w)
    ensures Sound(g + h, proc, v + w)
  {
    MergedNames(g, h, proc, v, w);
    MergedPredsAreAncestors(g, h, v, w);
    MergedIsConsistent(v, w);
    MergedIsBounded(g, h, v, w);
    MergedIsComplete(g, h, v, w);
  }

  // ----- one core, one step -----

  lemma PollKeeps(v: View, order: seq<int>, c: Core, otherDone: set<int>)
    requires CoreInv(v, order, c, otherDone)
    ensures CoreInv(v, order, c.(graph := UpdateExternal(c.graph, otherDone)), otherDone)
  {
  }

  lemma OtherGrows(v: View, order: seq<int>, c: Core, otherDone: set<int>, more: set<int>)
    requires CoreInv(v, order, c, otherDone) && otherDone <= more
    ensures CoreInv(v, order, c, more)
  {
    forall t | t in c.graph.tasks ensures TaskInv(v[t], c.graph.tasks[t], Elements(c.finished), more) {
      assert TaskInv(v[t], c.graph.tasks[t], Elements(c.finished), otherDone);
    }
  }

  lemma AddKeepsCore(v: View, order: seq<int>, c: Core, otherDone: set<int>,
                     w: View, addedOrder: seq<int>, part: Graph)
    requires CoreInv(v, order, c, otherDone) && v.Keys <= Elements(order)
    requires Elements(addedOrder) !! Elements(order)
    requires part.order == Pick(addedOrder, w.Keys) && w.Keys <= Elements(addedOrder)
    requires part.tasks.Keys == w.Keys && forall t :: t in w ==> w[t].preds <= w.Keys
    requires forall t :: t in w ==> TaskInv(w[t], part.tasks[t], {}, {})
    ensures CoreInv(v + w, order + addedOrder, c.(graph := Merge(c.graph, part)), otherDone)
  {
    var g := Merge(c.graph, part);
    assert g.tasks.Keys == (v + w).Keys - Elements(c.finished);
    forall t | t in g.tasks ensures TaskInv((v + w)[t], g.tasks[t], Elements(c.finished), otherDone) {
      if t in w {
        assert TaskInv(w[t], part.tasks[t], {}, {});
        assert w[t].preds - Elements(c.finished) == w[t].preds;
      } else {
        assert TaskInv(v[t], c.graph.tasks[t], Elements(c.finished), otherDone);
      }
    }
    PickConcat(order, addedOrder, g.tasks.Keys);
    PickAgree(order, g.tasks.Keys, c.graph.tasks.Keys);
    PickAgree(addedOrder, g.tasks.Keys, w.Keys);
  }

  /** The successors of the running task are all still queued and still wait for it, so
      `remove_task` passes its assertions. */
  lemma RunningIsRemovable(v: View, order: seq<int>, c: Core, otherDone: set<int>, d: int)
    requires CoreInv(v, order, c, otherDone) && c.running.Some? && v.Keys <= Elements(order)
    requires Consistent(v) && c.running.value !in v[c.running.value].preds
    requires forall x :: x in c.finished ==> v[x].preds <= Elements(c.finished)
    ensures CanRemove(DecreaseDeadlines(c.graph, d), c.running.value)
  {
    var t := c.running.value;
    assert TaskInv(v[t], c.graph.tasks[t], Elements(c.finished), otherDone);
    forall x | x in c.graph.tasks[t].succs ensures x != t && x in c.graph.tasks && t in c.graph.tasks[x].preds {
      assert x in v && t in v[x].preds;
      assert t !in Elements(c.finished);
      assert x !in c.finished;
      assert TaskInv(v[x], c.graph.tasks[x], Elements(c.finished), otherDone);
    }
    assert t in order;
  }

  /** What finishing `t` does to another task that is queued on its core. */
  lemma ReleasedKeeps(v: View, done: set<int>, otherDone: set<int>, t: int, x: int, info: TaskInfo, d: int)
    requires Consistent(v) && t in v && x in v && TaskInv(v[x], info, done, otherDone)
    ensures TaskInv(v[x], Released(info.(deadline := Sooner(info.deadline, d)), t, x in v[t].succs), done + {t}, otherDone)
  {
    assert x in v[t].succs <==> t in v[x].preds;
  }

  lemma RemovedTask(g: Graph, t: int, d: int, x: int)
    requires CanRemove(DecreaseDeadlines(g, d), t)
    ensures var r := RemoveTask(DecreaseDeadlines(g, d), t).value;
            && t in g.tasks && r.tasks.Keys == g.tasks.Keys - {t} && r.order == Pick(g.order, g.tasks.Keys - {t})
            && (x in r.tasks ==>
                  r.tasks[x] == Released(g.tasks[x].(deadline := Sooner(g.tasks[x].deadline, d)), t, x in g.tasks[t].succs))
  {
    assert DecreaseDeadlines(g, d).tasks.Keys == g.tasks.Keys;
  }

  lemma FinishedTaskInv(v: View, c: Core, otherDone: set<int>, t: int, d: int, x: int)
    requires Consistent(v) && CanRemove(DecreaseDeadlines(c.graph, d), t) && c.graph.tasks.Keys <= v.Keys
    requires forall y :: y in c.graph.tasks ==> TaskInv(v[y], c.graph.tasks[y], Elements(c.finished), otherDone)
    requires x in RemoveTask(DecreaseDeadlines(c.graph, d), t).value.tasks
    ensures x in v &&
            TaskInv(v[x], RemoveTask(DecreaseDeadlines(c.graph, d), t).value.tasks[x], Elements(c.finished) + {t}, otherDone)
  {
    RemovedTask(c.graph, t, d, x);
    ReleasedKeeps(v, Elements(c.finished), otherDone, t, x, c.graph.tasks[x], d);
  }

  lemma FinishKeepsCore(v: View, order: seq<int>, c: Core, otherDone: set<int>, d: int)
    requires CoreInv(v, order, c, otherDone) && c.running.Some?
    requires Consistent(v)
    requires CanRemove(DecreaseDeadlines(c.graph, d), c.running.value)
    ensures var t := c.running.value;
            CoreInv(v, order,
                    Core(RemoveTask(DecreaseDeadlines(c.graph, d), t).value, c.finished + [t], None), otherDone)
  {
    var t := c.running.value;
    var g := RemoveTask(DecreaseDeadlines(c.graph, d), t).value;
    RemovedTask(c.graph, t, d, t);
    assert Elements(c.finished + [t]) == Elements(c.finished) + {t};
    forall x | x in g.tasks ensures TaskInv(v[x], g.tasks[x], Elements(c.finished) + {t}, otherDone) {
      FinishedTaskInv(v, c, otherDone, t, d, x);
    }
    QueueShrinks(order, c.graph.order, c.graph.tasks.Keys, t);
    NoDupAppend(c.finished, t);
  }

  lemma QueueShrinks(order: seq<int>, queue: seq<int>, keys: set<int>, t: int)
    requires queue == Pick(order, keys)
    ensures Pick(queue, keys - {t}) == Pick(order, keys - {t})
  {
    PickPick(order, keys, keys - {t});
    assert keys * (keys - {t}) == keys - {t};
  }

  // ----- readiness -----

  lemma HistoryClosed(m: TaskMap, h: seq<int>)
    requires Topological(m, h)
    ensures forall t :: t in Elements(h) ==> t in m && m[t].preds <= Elements(h)
  {
    forall t | t in Elements(h) ensures t in m && m[t].preds <= Elements(h) {
      var i :| 0 <= i < |h| && h[i] == t;
      assert Elements(h[..i]) <= Elements(h);
    }
  }

  lemma HistoryAppend(m: TaskMap, h: seq<int>, t: int)
    requires Topological(m, h) && t in m && m[t].preds <= Elements(h)
    ensures Topological(m, h + [t]) && Elements(h + [t]) == Elements(h) + {t}
  {
    var k := h + [t];
    forall i | 0 <= i < |k| ensures k[i] in m && m[k[i]].preds <= Elements(k[..i]) {
      if i < |h| {
        assert k[..i] == h[..i];
      } else {
        assert k[..i] == h;
      }
    }
  }

  /** For a set that is closed under predecessors, a task's full-graph predecessors are
      in it exactly when those of its view are. */
  lemma PredsThroughView(m: TaskMap, proc: ProcessorType, v: View, t: int, s: set<int>)
    requires Sound(m, proc, v) && t in v && Acyclic(m)
    requires forall x :: x in s && x in m ==> m[x].preds <= s
    ensures m[t].preds <= s <==> v[t].preds <= s && v[t].extPreds <= s
  {
    if m[t].preds <= s {
      forall x | x in v[t].preds ensures x in s {
        assert Ancestor(m, x, t);
        ClosedUnderAncestor(m, s + {t}, x, t);
        assert x != t;
      }
      forall x | x in v[t].extPreds ensures x in s {
        assert x in m[t].preds;
      }
    }
  }

  lemma EmptyLeft(s: set<int>, all: set<int>, part: set<int>)
    requires forall x :: x in s ==> (x in all <==> x in part)
    ensures s - part == {} <==> s <= all
  {
    if s - part == {} {
      forall x | x in s ensures x in all {
        assert x !in s - part;
      }
    }
    if s <= all {
      forall x | x in s ensures x in part {
        assert x in all;
      }
    }
  }

  lemma ReadyInView(v: View, order: seq<int>, c: Core, otherDone: set<int>, all: set<int>, t: int)
    requires CoreInv(v, order, c, otherDone) && t in c.graph.tasks
    requires forall x :: x in v[t].preds ==> (x in all <==> x in Elements(c.finished))
    requires forall x :: x in v[t].extPreds ==> (x in all <==> x in otherDone)
    ensures t in RootSet(UpdateExternal(c.graph, otherDone).tasks, false) <==>
            v[t].preds <= all && v[t].extPreds <= all
  {
    var info := c.graph.tasks[t];
    assert TaskInv(v[t], info, Elements(c.finished), otherDone);
    EmptyLeft(v[t].preds, all, Elements(c.finished));
    EmptyLeft(v[t].extPreds, all, otherDone);
    assert info.extPreds - otherDone == v[t].extPreds - otherDone;
  }

  /** The other core's tasks, seen from this core. */
  lemma ExternalIsOther(vs: Views, s: System, proc: ProcessorType, t: int)
    requires Inv(vs, s) && t in vs.Of(proc)
    ensures forall x :: x in vs.Of(proc)[t].extPreds ==> x in vs.Of(proc.Other())
  {
    var v := vs.Of(proc);
    assert CoreOk(vs, s, proc) && CoreOk(vs, s, proc.Other());
    forall x | x in v[t].extPreds ensures x in vs.Of(proc.Other()) {
      assert x in s.full.tasks[t].preds && x !in v.Keys;
      assert x in s.full.tasks;
    }
  }

  /** A queued task is ready on its core exactly when all its predecessors in the full
      graph have finished, on either core. */
  lemma ReadyIffPredecessorsFinished(vs: Views, s: System, proc: ProcessorType, t: int)
    requires Inv(vs, s) && t in s.Of(proc).graph.tasks
    ensures t in RootSet(Polled(s, proc).tasks, false) <==> s.full.tasks[t].preds <= Elements(s.history)
  {
    assert CoreOk(vs, s, proc) && CoreOk(vs, s, proc.Other());
    ExternalIsOther(vs, s, proc, t);
    HistoryClosed(s.full.tasks, s.history);
    PredsThroughView(s.full.tasks, proc, vs.Of(proc), t, Elements(s.history));
    ReadyInView(vs.Of(proc), s.full.order, s.Of(proc), Elements(s.Of(proc.Other()).finished), Elements(s.history), t);
  }

  lemma FinishedClosedOn(vs: Views, s: System, proc: ProcessorType)
    requires Inv(vs, s)
    ensures forall x :: x in s.Of(proc).finished ==>
              x in vs.Of(proc) && vs.Of(proc)[x].preds <= Elements(s.Of(proc).finished)
  {
    assert CoreOk(vs, s, proc);
    HistoryClosed(s.full.tasks, s.history);
    forall x | x in s.Of(proc).finished
      ensures x in vs.Of(proc) && vs.Of(proc)[x].preds <= Elements(s.Of(proc).finished)
    {
      assert x in Elements(s.Of(proc).finished);
      PredsThroughView(s.full.tasks, proc, vs.Of(proc), x, Elements(s.history));
    }
  }

  /** The running task has all its predecessors finished. */
  lemma RunningHasPredecessorsFinished(vs: Views, s: System, proc: ProcessorType)
    requires Inv(vs, s) && s.Of(proc).running.Some?
    ensures var t := s.Of(proc).running.value;
            && t in TasksOn(s.full.tasks, proc) && t !in s.history
            && s.full.tasks[t].preds <= Elements(s.history)
            && t !in vs.Of(proc)[t].preds
  {
    var t := s.Of(proc).running.value;
    assert CoreOk(vs, s, proc);
    ReadyIffPredecessorsFinished(vs, s, proc, t);
    assert t !in Elements(s.history);
    assert !Ancestor(s.full.tasks, t, t);
  }

  // ----- the whole system -----

  /** The effect of a finish on the fields of the system. */
  lemma FinishEffect(s: System, proc: ProcessorType, d: nat)
    requires s.Of(proc).running.Some?
    requires CanRemove(DecreaseDeadlines(s.Of(proc).graph, d), s.Of(proc).running.value)
    ensures var c := s.Of(proc);
            var t := c.running.value;
            var r := Apply(s, Finish(proc, d));
            && r.Some? && r.value.full == s.full && r.value.history == s.history + [t]
            && r.value.Of(proc.Other()) == s.Of(proc.Other())
            && r.value.Of(proc) == Core(RemoveTask(DecreaseDeadlines(c.graph, d), t).value, c.finished + [t], None)
  {
  }

  lemma FinishIsRemovable(vs: Views, s: System, proc: ProcessorType, d: nat)
    requires Inv(vs, s) && s.Of(proc).running.Some?
    ensures CanRemove(DecreaseDeadlines(s.Of(proc).graph, d), s.Of(proc).running.value)
  {
    assert CoreOk(vs, s, proc);
    FinishedClosedOn(vs, s, proc);
    RunningHasPredecessorsFinished(vs, s, proc);
    RunningIsRemovable(vs.Of(proc), s.full.order, s.Of(proc), Elements(s.Of(proc.Other()).finished), d);
  }

  lemma FinishKeepsRunner(vs: Views, s: System, proc: ProcessorType, d: nat)
    requires Inv(vs, s) && Enabled(s, Finish(proc, d)) && Apply(s, Finish(proc, d)).Some?
    ensures CoreOk(vs, Apply(s, Finish(proc, d)).value, proc)
  {
    var c := s.Of(proc);
    var t := c.running.value;
    assert CoreOk(vs, s, proc);
    FinishKeepsCore(vs.Of(proc), s.full.order, c, Elements(s.Of(proc.Other()).finished), d);
    FinishEffect(s, proc, d);
    DoneGrows(c.finished, s.history, vs.Of(proc).Keys, t);
  }

  lemma DoneGrows(finished: seq<int>, history: seq<int>, keys: set<int>, t: int)
    requires Elements(finished) == Elements(history) * keys && t in keys
    ensures Elements(finished + [t]) == Elements(history + [t]) * keys
  {
    assert Elements(finished + [t]) == Elements(finished) + {t};
    assert Elements(history + [t]) == Elements(history) + {t};
  }

  lemma FinishKeepsWaiter(vs: Views, s: System, proc: ProcessorType, d: nat)
    requires Inv(vs, s) && Enabled(s, Finish(proc, d)) && Apply(s, Finish(proc, d)).Some?
    ensures CoreOk(vs, Apply(s, Finish(proc, d)).value, proc.Other())
  {
    var c := s.Of(proc);
    var t := c.running.value;
    var v := vs.Of(proc.Other());
    assert CoreOk(vs, s, proc) && CoreOk(vs, s, proc.Other());
    assert t in TasksOn(s.full.tasks, proc) && t !in v;
    FinishEffect(s, proc, d);
    DoneStays(c.finished, s.history, v.Keys, t);
    OtherGrows(v, s.full.order, s.Of(proc.Other()), Elements(c.finished), Elements(c.finished + [t]));
  }

  lemma DoneStays(finished: seq<int>, history: seq<int>, keys: set<int>, t: int)
    requires t !in keys
    ensures Elements(finished) <= Elements(finished + [t])
    ensures Elements(history + [t]) * keys == Elements(history) * keys
  {
    assert Elements(history + [t]) == Elements(history) + {t};
  }

  lemma FinishKeeps(vs: Views, s: System, proc: ProcessorType, d: nat)
    requires Inv(vs, s) && Enabled(s, Finish(proc, d))
    ensures Apply(s, Finish(proc, d)).Some? && Inv(vs, Apply(s, Finish(proc, d)).value)
  {
    FinishIsRemovable(vs, s, proc, d);
    FinishEffect(s, proc, d);
    FinishKeepsRunner(vs, s, proc, d);
    FinishKeepsWaiter(vs, s, proc, d);
    RunningHasPredecessorsFinished(vs, s, proc);
    HistoryAppend(s.full.tasks, s.history, s.Of(proc).running.value);
    NoDupAppend(s.history, s.Of(proc).running.value);
  }

  ghost function Grown(vs: Views, h: Graph): Views
    requires IsDag(h)
  {
    Views(vs.cpu + ViewOf(h.tasks, CPU), vs.qpu + ViewOf(h.tasks, QPU))
  }

  lemma AddedView(h: Graph, proc: ProcessorType) returns (w: View, part: Graph)
    requires IsDag(h)
    ensures w == ViewOf(h.tasks, proc) && part == PartialGraph(h, proc)
    ensures Sound(h.tasks, proc, w)
    ensures part.order == Pick(h.order, w.Keys) && part.tasks.Keys == w.Keys && w.Keys <= Elements(h.order)
    ensures forall t :: t in w ==> TaskInv(w[t], part.tasks[t], {}, {})
  {
    w := ViewOf(h.tasks, proc);
    part := PartialGraph(h, proc);
    ViewIsSound(h.tasks, proc);
    ShapesMatch(PartialTasks(h.tasks, proc));
  }

  lemma AddEffect(s: System, h: Graph, proc: ProcessorType)
    requires Enabled(s, Add(h))
    ensures var s' := Apply(s, Add(h)).value;
            && s'.full == Merge(s.full, h) && s'.history == s.history
            && s'.Of(proc) == s.Of(proc).(graph := Merge(s.Of(proc).graph, PartialGraph(h, proc)))
            && s'.Of(proc.Other()).finished == s.Of(proc.Other()).finished
  {
  }

  lemma AddKeepsOn(vs: Views, s: System, h: Graph, proc: ProcessorType)
    requires Inv(vs, s) && Enabled(s, Add(h))
    ensures CoreOk(Grown(vs, h), Apply(s, Add(h)).value, proc)
  {
    var w, part := AddedView(h, proc);
    var v := vs.Of(proc);
    assert CoreOk(vs, s, proc);
    HistoryClosed(s.full.tasks, s.history);
    AddKeepsParts(s.full, h, proc, v, w, part, s.Of(proc), Elements(s.Of(proc.Other()).finished), Elements(s.history));
    AddEffect(s, h, proc);
  }

  lemma AddKeepsParts(full: Graph, h: Graph, proc: ProcessorType, v: View, w: View, part: Graph,
                      c: Core, otherDone: set<int>, history: set<int>)
    requires IsDag(full) && IsDag(h) && full.tasks.Keys !! h.tasks.Keys
    requires Sound(full.tasks, proc, v) && Sound(h.tasks, proc, w)
    requires CoreInv(v, full.order, c, otherDone) && history <= full.tasks.Keys
    requires part.order == Pick(h.order, w.Keys) && part.tasks.Keys == w.Keys && w.Keys <= Elements(h.order)
    requires forall t :: t in w ==> TaskInv(w[t], part.tasks[t], {}, {})
    ensures Sound(Merge(full, h).tasks, proc, v + w)
    ensures CoreInv(v + w, Merge(full, h).order, c.(graph := Merge(c.graph, part)), otherDone)
    ensures history * (v + w).Keys == history * v.Keys
  {
    AddKeepsCore(v, full.order, c, otherDone, w, h.order, part);
    MergedIsSound(full.tasks, h.tasks, proc, v, w);
  }

  lemma AddKeeps(vs: Views, s: System, h: Graph)
    requires Inv(vs, s) && Enabled(s, Add(h))
    ensures Inv(Grown(vs, h), Apply(s, Add(h)).value)
  {
    AddKeepsOn(vs, s, h, CPU);
    AddKeepsOn(vs, s, h, QPU);
    MergedIsDag(s.full, h);
    var big := Merge(s.full, h).tasks;
    forall i | 0 <= i < |s.history|
      ensures s.history[i] in big && big[s.history[i]].preds <= Elements(s.history[..i])
    {
      assert s.history[i] in s.full.tasks;
    }
  }

  lemma PollOrStartKeeps(vs: Views, s: System, proc: ProcessorType, e: Event)
    requires Inv(vs, s) && Enabled(s, e) && (e == Poll(proc) || (e.Start? && e.proc == proc))
    ensures Inv(vs, Apply(s, e).value)
  {
    assert CoreOk(vs, s, proc) && CoreOk(vs, s, proc.Other());
    PollKeeps(vs.Of(proc), s.full.order, s.Of(proc), Elements(s.Of(proc.Other()).finished));
    var s' := Apply(s, e).value;
    assert CoreOk(vs, s', proc) && CoreOk(vs, s', proc.Other());
  }

  /** No step from a state that satisfies the invariant fails an assertion, and the
      invariant holds again after it. */
  lemma StepKeeps(s: System, e: Event)
    requires SystemInv(s) && Enabled(s, e)
    ensures Apply(s, e).Some? && SystemInv(Apply(s, e).value)
  {
    var vs :| Inv(vs, s);
    match e
    case Add(h) => AddKeeps(vs, s, h);
    case Poll(proc) => PollOrStartKeeps(vs, s, proc, e);
    case Start(proc, t) => PollOrStartKeeps(vs, s, proc, e);
    case Finish(proc, d) => FinishKeeps(vs, s, proc, d);
    case Fail(proc) => FailKeeps(vs, s, proc);
  }

  lemma FailKeeps(vs: Views, s: System, proc: ProcessorType)
    requires Inv(vs, s) && Enabled(s, Fail(proc))
    ensures Inv(vs, Apply(s, Fail(proc)).value)
  {
    assert CoreOk(vs, s, proc) && CoreOk(vs, s, proc.Other());
    var s' := Apply(s, Fail(proc)).value;
    assert CoreOk(vs, s', proc) && CoreOk(vs, s', proc.Other());
  }

  lemma {:induction false} RunKeeps(ss: seq<System>, es: seq<Event>, i: nat)
    requires IsRun(ss, es) && i < |ss|
    ensures SystemInv(ss[i])
    decreases i
  {
    if i == 0 {
      assert Inv(Views(map[], map[]), ss[0]);
    } else {
      RunKeeps(ss, es, i - 1);
      assert StepAt(ss, es, i - 1);
      StepKeeps(ss[i - 1], es[i - 1]);
    }
  }

  // ----- what the invariant says, without the views -----

  ghost predicate CoreFacts(s: System, proc: ProcessorType) {
    var c := s.Of(proc);
    && c.graph.tasks.Keys == TasksOn(s.full.tasks, proc) - Elements(s.history)
    && c.graph.order == Pick(s.full.order, c.graph.tasks.Keys)
    && (c.running.Some? ==> c.running.value in c.graph.tasks)
    && (forall t :: t in c.graph.tasks ==> c.graph.tasks[t].task == s.full.tasks[t].task)
  }

  lemma QueueKeys(v: View, order: seq<int>, c: Core, otherDone: set<int>, history: set<int>)
    requires CoreInv(v, order, c, otherDone) && Elements(c.finished) == history * v.Keys
    ensures c.graph.tasks.Keys == v.Keys - history && c.graph.order == Pick(order, c.graph.tasks.Keys)
    ensures c.running.Some? ==> c.running.value in c.graph.tasks
  {
  }

  lemma QueuedTask(m: TaskMap, proc: ProcessorType, v: View, order: seq<int>, c: Core, otherDone: set<int>, t: int)
    requires Names(m, proc, v) && CoreInv(v, order, c, otherDone) && t in c.graph.tasks
    ensures t in m && c.graph.tasks[t].task == m[t].task
  {
    assert TaskInv(v[t], c.graph.tasks[t], Elements(c.finished), otherDone);
  }

  lemma InvCoreFacts(vs: Views, s: System, proc: ProcessorType)
    requires Inv(vs, s)
    ensures CoreFacts(s, proc)
  {
    assert CoreOk(vs, s, proc);
    var v, c, done := vs.Of(proc), s.Of(proc), Elements(s.Of(proc.Other()).finished);
    QueueKeys(v, s.full.order, c, done, Elements(s.history));
    forall t | t in c.graph.tasks ensures t in s.full.tasks && c.graph.tasks[t].task == s.full.tasks[t].task {
      QueuedTask(s.full.tasks, proc, v, s.full.order, c, done, t);
    }
  }

  lemma StateFacts(s: System)
    requires SystemInv(s)
    ensures IsDag(s.full)
    ensures NoDup(s.history) && Topological(s.full.tasks, s.history)
    ensures CoreFacts(s, CPU) && CoreFacts(s, QPU)
  {
    var vs :| Inv(vs, s);
    InvCoreFacts(vs, s, CPU);
    InvCoreFacts(vs, s, QPU);
  }

  lemma RunFacts(ss: seq<System>, es: seq<Event>, i: nat)
    requires IsRun(ss, es) && i < |ss|
    ensures IsDag(ss[i].full)
    ensures NoDup(ss[i].history) && Topological(ss[i].full.tasks, ss[i].history)
    ensures CoreFacts(ss[i], CPU) && CoreFacts(ss[i], QPU)
  {
    RunKeeps(ss, es, i);
    StateFacts(ss[i]);
  }

  ghost function ReadySet(s: System, proc: ProcessorType): set<int> {
    set t | t in TasksOn(s.full.tasks, proc) && t !in s.history && s.full.tasks[t].preds <= Elements(s.history)
  }

  lemma RunReady(ss: seq<System>, es: seq<Event>, i: nat, proc: ProcessorType)
    requires IsRun(ss, es) && i < |ss|
    ensures RootSet(Polled(ss[i], proc).tasks, false) == ReadySet(ss[i], proc)
  {
    RunKeeps(ss, es, i);
    var vs :| Inv(vs, ss[i]);
    InvReady(vs, ss[i], proc);
  }

  lemma InvReady(vs: Views, s: System, proc: ProcessorType)
    requires Inv(vs, s)
    ensures RootSet(Polled(s, proc).tasks, false) == ReadySet(s, proc)
  {
    InvCoreFacts(vs, s, proc);
    forall t | t in s.Of(proc).graph.tasks
      ensures t in RootSet(Polled(s, proc).tasks, false) <==> s.full.tasks[t].preds <= Elements(s.history)
    {
      ReadyIffPredecessorsFinished(vs, s, proc, t);
    }
    assert Polled(s, proc).tasks.Keys == s.Of(proc).graph.tasks.Keys;
  }

  lemma RunStep(ss: seq<System>, es: seq<Event>, i: nat, e: Event)
    requires IsRun(ss, es) && i < |ss| && Enabled(ss[i], e)
    ensures Apply(ss[i], e).Some?
  {
    RunKeeps(ss, es, i);
    StepKeeps(ss[i], e);
  }
}
