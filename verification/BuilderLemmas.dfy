/** The statements of the builders compute the closed form of a block's graph. */
module BuilderLemmas {
  import opened Tasks
  import opened GraphOps
  import opened TaskGraphs
  import opened Programs
  import opened Builders

  function TimesOf(b: Block, tm: Timing): CallTimes {
    CallTimes(HostTime(tm),
              match b.kind
              case QL(time) => if tm.ehi.Some? then Some(time) else None
              case QC(true, _, n) => if tm.pairDuration.Some? then Some(tm.pairDuration.value * n) else None
              case _ => tm.pairDuration,
              CallbackTime(tm))
  }

  /** `r` is `g` with the tasks of block `b` put behind it. */
  ghost predicate Puts(g: Graph, r: Graph, b: Block, pid: int, tm: Timing, first: int) {
    && r.order == g.order + Offsets(first, Size(b))
    && r.tasks.Keys == g.tasks.Keys + Ids(b, first)
    && (forall t :: t in g.tasks ==> r.tasks[t] == g.tasks[t])
    && (forall t :: t in Ids(b, first) ==> r.tasks[t] == InfoAt(b, pid, tm, first, t))
  }

  lemma PutsIsMerge(g: Graph, r: Graph, b: Block, pid: int, tm: Timing, first: int)
    requires Puts(g, r, b, pid, tm, first) && FreshFrom(g, first)
    ensures r == Merge(g, BlockGraph(b, pid, tm, first))
  {
    assert r.tasks == Merge(g, BlockGraph(b, pid, tm, first)).tasks;
  }

  lemma OffsetsAre(first: int)
    ensures Offsets(first, 1) == [first] && Offsets(first, 2) == [first, first + 1]
    ensures Offsets(first, 3) == [first, first + 1, first + 2]
    ensures Offsets(first, 4) == [first, first + 1, first + 2, first + 3]
  {
    assert Offsets(first, 0) == [];
  }

  lemma NoPreds(b: Block, first: int, t: int)
    requires forall x :: !IsPredecessor(b, first, t, x)
    ensures PredsAt(b, first, t) == {}
  {
  }

  lemma OnePred(b: Block, first: int, t: int, p: int)
    requires forall x :: IsPredecessor(b, first, t, x) <==> x == p
    ensures PredsAt(b, first, t) == {p}
  {
    assert IsPredecessor(b, first, t, p);
  }

  // ----- subroutine calls -----

  lemma RoutineInfo(b: Block, pid: int, tm: Timing, first: int)
    requires b.kind.QL?
    ensures InfoAt(b, pid, tm, first, first) == OnlyTask(Task(first, pid, PreCall(b.name, first), TimesOf(b, tm).host))
    ensures InfoAt(b, pid, tm, first, first + 1) ==
            OnlyTask(Task(first + 1, pid, LocalRoutine(b.name, first), TimesOf(b, tm).body)).(preds := {first})
    ensures InfoAt(b, pid, tm, first, first + 2) ==
            OnlyTask(Task(first + 2, pid, PostCall(b.name, first), TimesOf(b, tm).host)).(preds := {first + 1})
  {
    NoPreds(b, first, first);
    OnePred(b, first, first + 1, first);
    OnePred(b, first, first + 2, first + 1);
  }

  lemma RoutineAddedTasks(g: Graph, pid: int, name: string, times: CallTimes, pre: int)
    requires FreshFrom(g, pre)
    ensures var r := RoutineAdded(g, pid, name, times, pre);
            && r.order == g.order + [pre, pre + 1, pre + 2]
            && r.tasks.Keys == g.tasks.Keys + {pre, pre + 1, pre + 2}
            && (forall t :: t in g.tasks ==> r.tasks[t] == g.tasks[t])
            && r.tasks[pre] == OnlyTask(Task(pre, pid, PreCall(name, pre), times.host))
            && r.tasks[pre + 1] == OnlyTask(Task(pre + 1, pid, LocalRoutine(name, pre), times.body)).(preds := {pre})
            && r.tasks[pre + 2] == OnlyTask(Task(pre + 2, pid, PostCall(name, pre), times.host)).(preds := {pre + 1})
  {
    assert {} + {pre} == {pre} && {} + {pre + 1} == {pre + 1};
  }

  lemma RoutineAdds(g: Graph, b: Block, pid: int, tm: Timing, pre: int)
    requires b.kind.QL? && FreshFrom(g, pre)
    ensures RoutineAdded(g, pid, b.name, TimesOf(b, tm), pre) == Merge(g, BlockGraph(b, pid, tm, pre))
  {
    OffsetsAre(pre);
    RoutineInfo(b, pid, tm, pre);
    RoutineAddedTasks(g, pid, b.name, TimesOf(b, tm), pre);
    assert Ids(b, pre) == {pre, pre + 1, pre + 2};
    PutsIsMerge(g, RoutineAdded(g, pid, b.name, TimesOf(b, tm), pre), b, pid, tm, pre);
  }

  // ----- requests that wait for all pairs -----

  lemma WaitAllInfo(b: Block, pid: int, tm: Timing, first: int)
    requires b.kind.QC? && b.kind.waitAll
    ensures InfoAt(b, pid, tm, first, first) == OnlyTask(Task(first, pid, PreCall(b.name, first), TimesOf(b, tm).host))
    ensures InfoAt(b, pid, tm, first, first + 1) ==
            OnlyTask(Task(first + 1, pid, PostCall(b.name, first), TimesOf(b, tm).host))
            .(preds := {if b.kind.callback.Some? then first + 3 else first + 2})
    ensures InfoAt(b, pid, tm, first, first + 2) ==
            OnlyTask(Task(first + 2, pid, MultiPair(first), TimesOf(b, tm).body)).(preds := {first})
  {
    NoPreds(b, first, first);
    OnePred(b, first, first + 1, if b.kind.callback.Some? then first + 3 else first + 2);
    OnePred(b, first, first + 2, first);
  }

  lemma WaitAllCallbackInfo(b: Block, pid: int, tm: Timing, first: int)
    requires b.kind.QC? && b.kind.waitAll && b.kind.callback.Some?
    ensures InfoAt(b, pid, tm, first, first + 3) ==
            OnlyTask(Task(first + 3, pid, MultiPairCallback(b.kind.callback.value, first), TimesOf(b, tm).callback))
            .(preds := {first + 2})
  {
    OnePred(b, first, first + 3, first + 2);
  }

  lemma WaitAllAddedTasks(g: Graph, pid: int, name: string, callback: Option<string>, times: CallTimes, pre: int)
    requires FreshFrom(g, pre)
    ensures var r := WaitAllAdded(g, pid, name, callback, times, pre);
            var last := if callback.Some? then pre + 3 else pre + 2;
            && r.order == g.order + ([pre, pre + 1, pre + 2] + if callback.Some? then [pre + 3] else [])
            && r.tasks.Keys == g.tasks.Keys + {pre, pre + 1, pre + 2, last}
            && (forall t :: t in g.tasks ==> r.tasks[t] == g.tasks[t])
            && r.tasks[pre] == OnlyTask(Task(pre, pid, PreCall(name, pre), times.host))
            && r.tasks[pre + 1] == OnlyTask(Task(pre + 1, pid, PostCall(name, pre), times.host)).(preds := {last})
            && r.tasks[pre + 2] == OnlyTask(Task(pre + 2, pid, MultiPair(pre), times.body)).(preds := {pre})
            && (callback.Some? ==>
                  r.tasks[pre + 3] == OnlyTask(Task(pre + 3, pid, MultiPairCallback(callback.value, pre), times.callback))
                                      .(preds := {pre + 2}))
  {
    assert {} + {pre} == {pre} && {} + {pre + 2} == {pre + 2} && {} + {pre + 3} == {pre + 3};
  }

  lemma WaitAllTask(g: Graph, b: Block, pid: int, tm: Timing, pre: int, t: int)
    requires b.kind.QC? && b.kind.waitAll && FreshFrom(g, pre) && t in Ids(b, pre)
    ensures t in WaitAllAdded(g, pid, b.name, b.kind.callback, TimesOf(b, tm), pre).tasks
    ensures WaitAllAdded(g, pid, b.name, b.kind.callback, TimesOf(b, tm), pre).tasks[t] == InfoAt(b, pid, tm, pre, t)
  {
    WaitAllAddedTasks(g, pid, b.name, b.kind.callback, TimesOf(b, tm), pre);
    if t == pre + 3 {
      WaitAllCallbackInfo(b, pid, tm, pre);
    } else {
      assert t == pre || t == pre + 1 || t == pre + 2;
      WaitAllInfo(b, pid, tm, pre);
    }
  }

  lemma WaitAllIds(b: Block, pre: int)
    requires b.kind.QC? && b.kind.waitAll
    ensures Ids(b, pre) == {pre, pre + 1, pre + 2, if b.kind.callback.Some? then pre + 3 else pre + 2}
    ensures Offsets(pre, Size(b)) == [pre, pre + 1, pre + 2] + if b.kind.callback.Some? then [pre + 3] else []
  {
    OffsetsAre(pre);
  }

  lemma WaitAllAdds(g: Graph, b: Block, pid: int, tm: Timing, pre: int)
    requires b.kind.QC? && b.kind.waitAll && FreshFrom(g, pre)
    ensures WaitAllAdded(g, pid, b.name, b.kind.callback, TimesOf(b, tm), pre) == Merge(g, BlockGraph(b, pid, tm, pre))
  {
    var r := WaitAllAdded(g, pid, b.name, b.kind.callback, TimesOf(b, tm), pre);
    WaitAllIds(b, pre);
    WaitAllAddedTasks(g, pid, b.name, b.kind.callback, TimesOf(b, tm), pre);
    forall t | t in Ids(b, pre) ensures r.tasks[t] == InfoAt(b, pid, tm, pre, t) {
      WaitAllTask(g, b, pid, tm, pre, t);
    }
    PutsIsMerge(g, r, b, pid, tm, pre);
  }

  // ----- requests that handle one pair at a time -----

  function Sequential(b: Block, n: nat): Block
    requires b.kind.QC?
  {
    b.(kind := QC(false, b.kind.callback, n))
  }

  lemma CallAddedTasks(g: Graph, pid: int, name: string, times: CallTimes, pre: int)
    requires FreshFrom(g, pre)
    ensures var r := CallAdded(g, pid, name, times, pre);
            && r.order == g.order + [pre, pre + 1]
            && r.tasks.Keys == g.tasks.Keys + {pre, pre + 1}
            && (forall t :: t in g.tasks ==> r.tasks[t] == g.tasks[t])
            && r.tasks[pre] == OnlyTask(Task(pre, pid, PreCall(name, pre), times.host))
            && r.tasks[pre + 1] == OnlyTask(Task(pre + 1, pid, PostCall(name, pre), times.host))
  {
  }

  lemma NoPairsInfo(b: Block, pid: int, tm: Timing, pre: int)
    requires b.kind.QC?
    ensures var none := Sequential(b, 0);
            && Ids(none, pre) == {pre, pre + 1} && Offsets(pre, Size(none)) == [pre, pre + 1]
            && InfoAt(none, pid, tm, pre, pre) == OnlyTask(Task(pre, pid, PreCall(b.name, pre), HostTime(tm)))
            && InfoAt(none, pid, tm, pre, pre + 1) == OnlyTask(Task(pre + 1, pid, PostCall(b.name, pre), HostTime(tm)))
  {
    var none := Sequential(b, 0);
    OffsetsAre(pre);
    NoPreds(none, pre, pre);
    NoPreds(none, pre, pre + 1);
  }

  function Last(callback: Option<string>, id: int): int {
    if callback.Some? then id + 1 else id
  }

  /** `r` is `g` with one more pair. */
  ghost predicate PairPut(g: Graph, r: Graph, pid: int, callback: Option<string>, times: CallTimes, pre: int, i: int,
                          id: int) {
    && pre + 1 in g.tasks
    && r.order == g.order + ([id] + if callback.Some? then [id + 1] else [])
    && r.tasks.Keys == g.tasks.Keys + {id, Last(callback, id)}
    && (forall t :: t in g.tasks && t != pre + 1 ==> r.tasks[t] == g.tasks[t])
    && r.tasks[pre + 1] == g.tasks[pre + 1].(preds := g.tasks[pre + 1].preds + {Last(callback, id)})
    && r.tasks[id] == OnlyTask(Task(id, pid, SinglePair(i, pre), times.body)).(preds := {pre})
    && (callback.Some? ==>
          r.tasks[id + 1] == OnlyTask(Task(id + 1, pid, SinglePairCallback(callback.value, i, pre), times.callback))
                             .(preds := {id}))
  }

  lemma PairIsPut(g: Graph, pid: int, callback: Option<string>, times: CallTimes, pre: int, i: int, id: int)
    requires pre + 1 in g.tasks && FreshFrom(g, id)
    ensures PairPut(g, PairAdded(g, pid, callback, times, pre, i, id), pid, callback, times, pre, i, id)
  {
    assert {} + {pre} == {pre} && {} + {id} == {id};
  }

  lemma NextPairIds(b: Block, pre: int, n: nat)
    requires b.kind.QC?
    ensures var id := PairId(b.kind.callback, pre, n);
            && Size(Sequential(b, n)) == id - pre
            && Ids(Sequential(b, n + 1), pre) == Ids(Sequential(b, n), pre) + {id, Last(b.kind.callback, id)}
            && Offsets(pre, Size(Sequential(b, n + 1))) ==
               Offsets(pre, Size(Sequential(b, n))) + ([id] + if b.kind.callback.Some? then [id + 1] else [])
  {
    var size := Size(Sequential(b, n));
    assert Offsets(pre, size + 1) == Offsets(pre, size) + [pre + size];
    if b.kind.callback.Some? {
      assert Offsets(pre, size + 2) == Offsets(pre, size + 1) + [pre + size + 1];
    }
  }

  lemma NextPairInfo(b: Block, pid: int, tm: Timing, pre: int, n: nat)
    requires b.kind.QC? && !b.kind.waitAll
    ensures var id := PairId(b.kind.callback, pre, n);
            && id in Ids(Sequential(b, n + 1), pre) && Last(b.kind.callback, id) in Ids(Sequential(b, n + 1), pre)
            && InfoAt(Sequential(b, n + 1), pid, tm, pre, id) ==
               OnlyTask(Task(id, pid, SinglePair(n, pre), tm.pairDuration)).(preds := {pre})
            && (b.kind.callback.Some? ==>
                  InfoAt(Sequential(b, n + 1), pid, tm, pre, id + 1) ==
                  OnlyTask(Task(id + 1, pid, SinglePairCallback(b.kind.callback.value, n, pre), CallbackTime(tm)))
                  .(preds := {id}))
  {
    var id := PairId(b.kind.callback, pre, n);
    OnePred(Sequential(b, n + 1), pre, id, pre);
    if b.kind.callback.Some? {
      OnePred(Sequential(b, n + 1), pre, id + 1, id);
    }
  }

  lemma PostCallGains(b: Block, pid: int, tm: Timing, pre: int, n: nat)
    requires b.kind.QC? && !b.kind.waitAll
    ensures var was, now := InfoAt(Sequential(b, n), pid, tm, pre, pre + 1), InfoAt(Sequential(b, n + 1), pid, tm, pre, pre + 1);
            now == was.(preds := was.preds + {Last(b.kind.callback, PairId(b.kind.callback, pre, n))})
  {
    var last := Last(b.kind.callback, PairId(b.kind.callback, pre, n));
    var before, after := PredsAt(Sequential(b, n), pre, pre + 1), PredsAt(Sequential(b, n + 1), pre, pre + 1);
    forall x ensures x in after <==> x in before + {last} {
    }
    assert after == before + {last};
  }

  lemma OtherTasksStay(b: Block, pid: int, tm: Timing, pre: int, n: nat, t: int)
    requires b.kind.QC? && !b.kind.waitAll && t in Ids(Sequential(b, n), pre) && t != pre + 1
    ensures t in Ids(Sequential(b, n + 1), pre)
    ensures InfoAt(Sequential(b, n), pid, tm, pre, t) == InfoAt(Sequential(b, n + 1), pid, tm, pre, t)
  {
    forall x ensures IsPredecessor(Sequential(b, n + 1), pre, t, x) <==> IsPredecessor(Sequential(b, n), pre, t, x) {
    }
    assert PredsAt(Sequential(b, n), pre, t) == PredsAt(Sequential(b, n + 1), pre, t);
  }

  lemma PairTask(g: Graph, h: Graph, r: Graph, b: Block, pid: int, tm: Timing, pre: int, n: nat, t: int)
    requires b.kind.QC? && !b.kind.waitAll && Puts(g, h, Sequential(b, n), pid, tm, pre)
    requires PairPut(h, r, pid, b.kind.callback, TimesOf(b, tm), pre, n, PairId(b.kind.callback, pre, n))
    requires t in Ids(Sequential(b, n + 1), pre)
    ensures t in r.tasks && r.tasks[t] == InfoAt(Sequential(b, n + 1), pid, tm, pre, t)
  {
    assert pre + 1 in Ids(Sequential(b, n), pre);
    NextPairIds(b, pre, n);
    if t == pre + 1 {
      PostCallGains(b, pid, tm, pre, n);
    } else if t in Ids(Sequential(b, n), pre) {
      OtherTasksStay(b, pid, tm, pre, n, t);
    } else {
      NextPairInfo(b, pid, tm, pre, n);
    }
  }

  lemma PutsIds(g: Graph, h: Graph, b: Block, pid: int, tm: Timing, pre: int, n: nat)
    requires b.kind.QC? && !b.kind.waitAll && FreshFrom(g, pre) && Puts(g, h, Sequential(b, n), pid, tm, pre)
    ensures pre + 1 in h.tasks && FreshFrom(h, PairId(b.kind.callback, pre, n))
  {
    NextPairIds(b, pre, n);
    assert pre + 1 in Ids(Sequential(b, n), pre);
  }

  lemma Chain(a: seq<int>, o: seq<int>, tail: seq<int>, s: set<int>, ids: set<int>, more: set<int>)
    ensures (a + o) + tail == a + (o + tail) && (s + ids) + more == s + (ids + more)
  {
  }

  lemma PairPutIds(g: Graph, h: Graph, r: Graph, b: Block, pid: int, tm: Timing, pre: int, n: nat)
    requires b.kind.QC? && !b.kind.waitAll && Puts(g, h, Sequential(b, n), pid, tm, pre)
    requires PairPut(h, r, pid, b.kind.callback, TimesOf(b, tm), pre, n, PairId(b.kind.callback, pre, n))
    ensures r.order == g.order + Offsets(pre, Size(Sequential(b, n + 1)))
    ensures r.tasks.Keys == g.tasks.Keys + Ids(Sequential(b, n + 1), pre)
  {
    var id := PairId(b.kind.callback, pre, n);
    NextPairIds(b, pre, n);
    Chain(g.order, Offsets(pre, Size(Sequential(b, n))), [id] + if b.kind.callback.Some? then [id + 1] else [],
          g.tasks.Keys, Ids(Sequential(b, n), pre), {id, Last(b.kind.callback, id)});
  }

  lemma PairPutRest(g: Graph, h: Graph, r: Graph, b: Block, pid: int, tm: Timing, pre: int, n: nat, t: int)
    requires b.kind.QC? && !b.kind.waitAll && Puts(g, h, Sequential(b, n), pid, tm, pre) && FreshFrom(g, pre)
    requires PairPut(h, r, pid, b.kind.callback, TimesOf(b, tm), pre, n, PairId(b.kind.callback, pre, n))
    requires t in g.tasks
    ensures t in r.tasks && r.tasks[t] == g.tasks[t]
  {
    assert t in h.tasks && t != pre + 1;
  }

  lemma PairAdds(g: Graph, h: Graph, b: Block, pid: int, tm: Timing, pre: int, n: nat)
    requires b.kind.QC? && !b.kind.waitAll && FreshFrom(g, pre) && Puts(g, h, Sequential(b, n), pid, tm, pre)
    ensures pre + 1 in h.tasks
    ensures Puts(g, PairAdded(h, pid, b.kind.callback, TimesOf(b, tm), pre, n, PairId(b.kind.callback, pre, n)),
                 Sequential(b, n + 1), pid, tm, pre)
  {
    PutsIds(g, h, b, pid, tm, pre, n);
    PairIsPut(h, pid, b.kind.callback, TimesOf(b, tm), pre, n, PairId(b.kind.callback, pre, n));
    var r := PairAdded(h, pid, b.kind.callback, TimesOf(b, tm), pre, n, PairId(b.kind.callback, pre, n));
    PairPutIds(g, h, r, b, pid, tm, pre, n);
    forall t | t in g.tasks ensures r.tasks[t] == g.tasks[t] {
      PairPutRest(g, h, r, b, pid, tm, pre, n, t);
    }
    forall t | t in Ids(Sequential(b, n + 1), pre) ensures r.tasks[t] == InfoAt(Sequential(b, n + 1), pid, tm, pre, t) {
      PairTask(g, h, r, b, pid, tm, pre, n, t);
    }
  }

  lemma {:induction false} PairsAdd(g: Graph, b: Block, pid: int, tm: Timing, pre: int, n: nat)
    requires b.kind.QC? && !b.kind.waitAll && FreshFrom(g, pre)
    ensures Puts(g, PairsAdded(g, pid, b.name, b.kind.callback, TimesOf(b, tm), pre, n), Sequential(b, n), pid, tm, pre)
  {
    if n == 0 {
      NoPairsInfo(b, pid, tm, pre);
      CallAddedTasks(g, pid, b.name, TimesOf(b, tm), pre);
    } else {
      PairsAdd(g, b, pid, tm, pre, n - 1);
      PairAdds(g, PairsAdded(g, pid, b.name, b.kind.callback, TimesOf(b, tm), pre, n - 1), b, pid, tm, pre, n - 1);
    }
  }

  lemma SequentialIs(b: Block, pid: int, tm: Timing, pre: int, n: nat, t: int)
    requires b.kind.QC? && !b.kind.waitAll && n == AsCount(b.kind.numPairs) && t in Ids(b, pre)
    ensures t in Ids(Sequential(b, n), pre) && InfoAt(Sequential(b, n), pid, tm, pre, t) == InfoAt(b, pid, tm, pre, t)
  {
    forall x ensures IsPredecessor(Sequential(b, n), pre, t, x) <==> IsPredecessor(b, pre, t, x) {
    }
    assert PredsAt(Sequential(b, n), pre, t) == PredsAt(b, pre, t);
  }

  lemma SequentialAdds(g: Graph, b: Block, pid: int, tm: Timing, pre: int)
    requires b.kind.QC? && !b.kind.waitAll && FreshFrom(g, pre)
    ensures PairsAdded(g, pid, b.name, b.kind.callback, TimesOf(b, tm), pre, AsCount(b.kind.numPairs)) ==
            Merge(g, BlockGraph(b, pid, tm, pre))
  {
    var n := AsCount(b.kind.numPairs);
    PairsAdd(g, b, pid, tm, pre, n);
    forall t | t in Ids(b, pre)
      ensures t in Ids(Sequential(b, n), pre) && InfoAt(Sequential(b, n), pid, tm, pre, t) == InfoAt(b, pid, tm, pre, t)
    {
      SequentialIs(b, pid, tm, pre, n, t);
    }
    PutsIsMerge(g, PairsAdded(g, pid, b.name, b.kind.callback, TimesOf(b, tm), pre, n), b, pid, tm, pre);
  }
}
