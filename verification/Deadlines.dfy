/** How deadlines age in a run of the two cores (qoala/runtime/task.py:534-542,
    qoala/sim/scheduler.py:810-816). */
module Deadlines {
  import opened Tasks
  import opened Reachability
  import opened Projection
  import opened GraphOps
  import opened TwoCore
  import opened TwoCoreSafety

  datatype Completion = Completion(id: int, duration: int)

  /** The tasks that succeeded on one core in the events `from..to` of a run. */
  ghost function Completions(ss: seq<System>, es: seq<Event>, from: nat, to: nat, proc: ProcessorType): seq<Completion>
    requires |ss| == |es| + 1 && from <= to <= |es|
  {
    if from == to then []
    else
      var before := Completions(ss, es, from, to - 1, proc);
      var e := es[to - 1];
      var c := ss[to - 1].Of(proc);
      if e.Finish? && e.proc == proc && c.running.Some? then before + [Completion(c.running.value, e.duration)] else before
  }

  function Elapsed(log: seq<Completion>): int {
    if log == [] then 0 else log[|log| - 1].duration + Elapsed(log[..|log| - 1])
  }

  ghost predicate IsLastSource(rel: map<int, int>, log: seq<Completion>, j: int) {
    && 0 <= j < |log| && log[j].id in rel
    && forall k :: j < k < |log| ==> log[k].id !in rel
  }

  ghost predicate NoSource(rel: map<int, int>, log: seq<Completion>) {
    forall k :: 0 <= k < |log| ==> log[k].id !in rel
  }

  /** The deadline a task must have after the completions in `log`: the activation value
      of the last of its finished sources, less the time spent on tasks since then; if none
      has finished, its own deadline, less all the time spent. */
  ghost predicate LawfulDeadline(deadline: Option<int>, rel: map<int, int>, log: seq<Completion>, now: Option<int>) {
    && (forall j :: IsLastSource(rel, log, j) ==> now == Some(rel[log[j].id] - Elapsed(log[j + 1..])))
    && (NoSource(rel, log) ==> now == if deadline.Some? then Some(deadline.value - Elapsed(log)) else None)
  }

  lemma {:induction false} ElapsedAppend(log: seq<Completion>, c: Completion)
    ensures Elapsed(log + [c]) == Elapsed(log) + c.duration
  {
    assert (log + [c])[..|log|] == log;
  }

  lemma LastSourceShrinks(rel: map<int, int>, log: seq<Completion>, c: Completion, j: int)
    requires IsLastSource(rel, log + [c], j) && j < |log|
    ensures IsLastSource(rel, log, j) && c.id !in rel
    ensures (log + [c])[j] == log[j] && (log + [c])[j + 1..] == log[j + 1..] + [c]
  {
    var long := log + [c];
    assert long[|log|] == c;
    forall k | j < k < |log| ensures log[k].id !in rel {
      assert long[k] == log[k];
    }
  }

  lemma NoSourceShrinks(rel: map<int, int>, log: seq<Completion>, c: Completion)
    requires NoSource(rel, log + [c])
    ensures NoSource(rel, log) && c.id !in rel
  {
    var long := log + [c];
    assert long[|log|] == c;
    forall k | 0 <= k < |log| ensures log[k].id !in rel {
      assert long[k] == log[k];
    }
  }

  lemma LawfulAtSource(rel: map<int, int>, log: seq<Completion>, now: Option<int>, c: Completion, j: int)
    requires forall i :: IsLastSource(rel, log, i) ==> now == Some(rel[log[i].id] - Elapsed(log[i + 1..]))
    requires IsLastSource(rel, log + [c], j)
    ensures (if c.id in rel then Some(rel[c.id]) else Sooner(now, c.duration)) ==
            Some(rel[(log + [c])[j].id] - Elapsed((log + [c])[j + 1..]))
  {
    if j < |log| {
      LastSourceShrinks(rel, log, c, j);
      ElapsedAppend(log[j + 1..], c);
    } else {
      assert (log + [c])[j + 1..] == [];
    }
  }

  /** One more completion: either it activates the deadline, or it makes it sooner. */
  lemma LawfulAppend(deadline: Option<int>, rel: map<int, int>, log: seq<Completion>, now: Option<int>, c: Completion)
    requires LawfulDeadline(deadline, rel, log, now)
    ensures LawfulDeadline(deadline, rel, log + [c], if c.id in rel then Some(rel[c.id]) else Sooner(now, c.duration))
  {
    var next := if c.id in rel then Some(rel[c.id]) else Sooner(now, c.duration);
    forall j | IsLastSource(rel, log + [c], j)
      ensures next == Some(rel[(log + [c])[j].id] - Elapsed((log + [c])[j + 1..]))
    {
      LawfulAtSource(rel, log, now, c, j);
    }
    if NoSource(rel, log + [c]) {
      NoSourceShrinks(rel, log, c);
      ElapsedAppend(log, c);
    }
  }

  ghost function Ids(log: seq<Completion>): set<int> {
    set c | c in log :: c.id
  }

  /** A queued task's deadline is lawful and its remaining relative deadlines are those
      whose source has not finished. */
  ghost predicate Aged(info: TaskInfo, initial: TaskInfo, log: seq<Completion>) {
    && LawfulDeadline(initial.deadline, initial.relDeadlines, log, info.deadline)
    && info.relDeadlines == initial.relDeadlines - Ids(log)
  }

  lemma AgedAppend(info: TaskInfo, initial: TaskInfo, log: seq<Completion>, c: Completion, isSucc: bool)
    requires Aged(info, initial, log) && c.id !in Ids(log)
    ensures Aged(Released(info.(deadline := Sooner(info.deadline, c.duration)), c.id, isSucc), initial, log + [c])
  {
    LawfulAppend(initial.deadline, initial.relDeadlines, log, info.deadline, c);
    assert Ids(log + [c]) == Ids(log) + {c.id} by {
      forall x | x in log + [c] ensures x.id in Ids(log) + {c.id} {
      }
      forall i | i in Ids(log) + {c.id} ensures i in Ids(log + [c]) {
        if i == c.id {
          assert c in log + [c];
        } else {
          var x :| x in log && x.id == i;
          assert x in log + [c];
        }
      }
    }
  }

  lemma AddKeepsOthers(s: System, h: Graph, proc: ProcessorType, t: int)
    requires Enabled(s, Add(h)) && Apply(s, Add(h)).Some? && t in s.full.tasks
    requires t in Apply(s, Add(h)).value.Of(proc).graph.tasks
    ensures t in Apply(s, Add(h)).value.full.tasks && t in s.Of(proc).graph.tasks
    ensures Apply(s, Add(h)).value.Of(proc).graph.tasks[t] == s.Of(proc).graph.tasks[t]
  {
    AddEffect(s, h, proc);
    assert PartialGraph(h, proc).tasks.Keys <= h.tasks.Keys;
  }

  lemma StepKeepsOthers(s: System, e: Event, proc: ProcessorType, t: int)
    requires Enabled(s, e) && Apply(s, e).Some? && t in s.full.tasks
    requires t in Apply(s, e).value.Of(proc).graph.tasks
    requires !(e.Finish? && e.proc == proc)
    ensures t in Apply(s, e).value.full.tasks
    ensures t in s.Of(proc).graph.tasks
    ensures var info := s.Of(proc).graph.tasks[t];
            var info' := Apply(s, e).value.Of(proc).graph.tasks[t];
            info'.deadline == info.deadline && info'.relDeadlines == info.relDeadlines
  {
    if e.Add? {
      AddKeepsOthers(s, e.added, proc, t);
    }
  }

  lemma FinishAges(s: System, proc: ProcessorType, d: nat, t: int, initial: TaskInfo, log: seq<Completion>)
    requires Enabled(s, Finish(proc, d)) && Apply(s, Finish(proc, d)).Some?
    requires t in Apply(s, Finish(proc, d)).value.Of(proc).graph.tasks
    requires t in s.Of(proc).graph.tasks && Aged(s.Of(proc).graph.tasks[t], initial, log)
    requires s.Of(proc).running.value !in Ids(log)
    ensures Aged(Apply(s, Finish(proc, d)).value.Of(proc).graph.tasks[t], initial,
                 log + [Completion(s.Of(proc).running.value, d)])
  {
    var c := s.Of(proc);
    var r := c.running.value;
    AgedAppend(c.graph.tasks[t], initial, log, Completion(r, d), t in c.graph.tasks[r].succs);
  }

  // ----- one event of a run -----

  lemma EventGrows(ss: seq<System>, es: seq<Event>, i: nat)
    requires IsRun(ss, es) && i < |es|
    ensures ss[i].full.tasks.Keys <= ss[i + 1].full.tasks.Keys
    ensures es[i].Add? ==> es[i].added.tasks.Keys <= ss[i + 1].full.tasks.Keys
    ensures Elements(ss[i].history) <= Elements(ss[i + 1].history)
  {
    assert StepAt(ss, es, i);
    if es[i].Finish? {
      var t := ss[i].Of(es[i].proc).running.value;
      assert Elements(ss[i].history) <= Elements(ss[i].history + [t]);
    }
  }

  lemma {:induction false} UploadStays(ss: seq<System>, es: seq<Event>, k: nat, i: nat, t: int)
    requires IsRun(ss, es) && k < i <= |es| && es[k].Add? && t in es[k].added.tasks
    ensures t in ss[i].full.tasks
    decreases i
  {
    EventGrows(ss, es, i - 1);
    if i > k + 1 {
      UploadStays(ss, es, k, i - 1, t);
    }
  }

  lemma UploadInstalls(ss: seq<System>, es: seq<Event>, k: nat, proc: ProcessorType, t: int)
    requires IsRun(ss, es) && k < |es| && es[k].Add? && IsDag(es[k].added)
    requires t in PartialTasks(es[k].added.tasks, proc)
    ensures t in ss[k + 1].Of(proc).graph.tasks
    ensures ss[k + 1].Of(proc).graph.tasks[t] == PartialTasks(es[k].added.tasks, proc)[t]
  {
    assert StepAt(ss, es, k);
  }

  lemma OtherEventKeeps(ss: seq<System>, es: seq<Event>, i: nat, proc: ProcessorType, t: int,
                        initial: TaskInfo, log: seq<Completion>)
    requires IsRun(ss, es) && i < |es| && !(es[i].Finish? && es[i].proc == proc)
    requires t in ss[i].full.tasks && t in ss[i + 1].Of(proc).graph.tasks
    ensures t in ss[i].Of(proc).graph.tasks
    ensures Aged(ss[i].Of(proc).graph.tasks[t], initial, log) ==> Aged(ss[i + 1].Of(proc).graph.tasks[t], initial, log)
  {
    assert StepAt(ss, es, i);
    StepKeepsOthers(ss[i], es[i], proc, t);
  }

  lemma FinishEventAges(ss: seq<System>, es: seq<Event>, i: nat, proc: ProcessorType, t: int,
                        initial: TaskInfo, log: seq<Completion>)
    requires IsRun(ss, es) && i < |es| && es[i].Finish? && es[i].proc == proc
    requires t in ss[i + 1].Of(proc).graph.tasks
    ensures t in ss[i].Of(proc).graph.tasks && ss[i].Of(proc).running.Some?
    ensures var c := Completion(ss[i].Of(proc).running.value, es[i].duration);
            && c.id in ss[i + 1].history
            && (Aged(ss[i].Of(proc).graph.tasks[t], initial, log) && Ids(log) <= Elements(ss[i].history)
                ==> Aged(ss[i + 1].Of(proc).graph.tasks[t], initial, log + [c]))
  {
    assert StepAt(ss, es, i);
    RunFacts(ss, es, i);
    assert CoreFacts(ss[i], proc);
    var r := ss[i].Of(proc).running.value;
    assert r !in Elements(ss[i].history);
    if Aged(ss[i].Of(proc).graph.tasks[t], initial, log) && Ids(log) <= Elements(ss[i].history) {
      FinishAges(ss[i], proc, es[i].duration, t, initial, log);
    }
  }

  lemma IdsAppend(log: seq<Completion>, c: Completion)
    ensures Ids(log + [c]) <= Ids(log) + {c.id}
  {
  }

  ghost predicate Lawful(ss: seq<System>, es: seq<Event>, k: nat, i: nat, proc: ProcessorType, t: int,
                         initial: TaskInfo)
    requires |ss| == |es| + 1 && k < i <= |es| && t in ss[i].Of(proc).graph.tasks
  {
    var log := Completions(ss, es, k + 1, i, proc);
    Aged(ss[i].Of(proc).graph.tasks[t], initial, log) && Ids(log) <= Elements(ss[i].history)
  }

  lemma LawfulStep(ss: seq<System>, es: seq<Event>, k: nat, i: nat, proc: ProcessorType, t: int, initial: TaskInfo)
    requires IsRun(ss, es) && k < i < |es|
    requires t in ss[i].full.tasks && t in ss[i + 1].Of(proc).graph.tasks
    ensures t in ss[i].Of(proc).graph.tasks
    ensures Lawful(ss, es, k, i, proc, t, initial) ==> Lawful(ss, es, k, i + 1, proc, t, initial)
  {
    EventGrows(ss, es, i);
    var log := Completions(ss, es, k + 1, i, proc);
    if es[i].Finish? && es[i].proc == proc {
      FinishEventAges(ss, es, i, proc, t, initial, log);
      IdsAppend(log, Completion(ss[i].Of(proc).running.value, es[i].duration));
    } else {
      OtherEventKeeps(ss, es, i, proc, t, initial, log);
    }
  }

  lemma {:induction false} StaysLawful(ss: seq<System>, es: seq<Event>, k: nat, i: nat, proc: ProcessorType, t: int,
                                       initial: TaskInfo)
    requires IsRun(ss, es) && k < i <= |es| && es[k].Add? && t in es[k].added.tasks
    requires t in ss[k + 1].Of(proc).graph.tasks && Lawful(ss, es, k, k + 1, proc, t, initial)
    requires t in ss[i].Of(proc).graph.tasks
    ensures Lawful(ss, es, k, i, proc, t, initial)
    decreases i
  {
    if i > k + 1 {
      UploadStays(ss, es, k, i - 1, t);
      LawfulStep(ss, es, k, i - 1, proc, t, initial);
      StaysLawful(ss, es, k, i - 1, proc, t, initial);
    }
  }

  lemma NothingCompleted(initial: TaskInfo)
    ensures Aged(initial, initial, [])
  {
    assert initial.relDeadlines - Ids([]) == initial.relDeadlines;
  }

  lemma UploadIsLawful(ss: seq<System>, es: seq<Event>, k: nat, proc: ProcessorType, t: int)
    requires IsRun(ss, es) && k < |es| && es[k].Add? && IsDag(es[k].added)
    requires t in PartialTasks(es[k].added.tasks, proc)
    ensures t in es[k].added.tasks && t in ss[k + 1].Of(proc).graph.tasks
    ensures Lawful(ss, es, k, k + 1, proc, t, PartialTasks(es[k].added.tasks, proc)[t])
  {
    UploadInstalls(ss, es, k, proc, t);
    NothingCompleted(PartialTasks(es[k].added.tasks, proc)[t]);
    assert Completions(ss, es, k + 1, k + 1, proc) == [];
  }

  /** What its core holds of a task is lawful with respect to what its core was given. */
  lemma DeadlineOfPart(ss: seq<System>, es: seq<Event>, k: nat, i: nat, proc: ProcessorType, t: int)
    requires IsRun(ss, es) && k < i <= |es| && es[k].Add? && IsDag(es[k].added)
    requires t in PartialTasks(es[k].added.tasks, proc) && t in ss[i].Of(proc).graph.tasks
    ensures Lawful(ss, es, k, i, proc, t, PartialTasks(es[k].added.tasks, proc)[t])
  {
    var initial := PartialTasks(es[k].added.tasks, proc)[t];
    UploadIsLawful(ss, es, k, proc, t);
    StaysLawful(ss, es, k, i, proc, t, initial);
  }

  /** From its upload to its removal, in every run, the deadline of a task obeys the law:
      it is that of the uploaded task, or of the last of its finished sources on the same
      processor, less the time spent since; the sources that have not finished are kept
      with the values they were uploaded with, and those of the other processor never count. */
  lemma DeadlineLaw(ss: seq<System>, es: seq<Event>, k: nat, i: nat, proc: ProcessorType, t: int)
    requires IsRun(ss, es) && k < i <= |es| && es[k].Add? && t in es[k].added.tasks
    requires es[k].added.tasks[t].task.Processor() == proc && t in ss[i].Of(proc).graph.tasks
    ensures var uploaded, own := es[k].added.tasks[t], OwnDeadlines(es[k].added.tasks, proc, t);
            var log, info := Completions(ss, es, k + 1, i, proc), ss[i].Of(proc).graph.tasks[t];
            && LawfulDeadline(uploaded.deadline, own, log, info.deadline)
            && info.relDeadlines == own - Ids(log)
            && Ids(log) <= Elements(ss[i].history)
  {
    assert StepAt(ss, es, k);
    PartKeepsTask(es[k].added.tasks, proc, t);
    DeadlineOfPart(ss, es, k, i, proc, t);
  }
}
