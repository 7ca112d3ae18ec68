/** A run of the whole node is a run of its two cores: what holds of those holds while
    programs are scheduled block by block. */
module NodeProjection {
  import opened Tasks
  import opened Reachability
  import opened GraphOps
  import opened TwoCore
  import opened TwoCoreSafety
  import opened TwoCoreTheorems
  import opened Programs
  import opened ProgramTheorems
  import opened SharedPointers
  import opened EdfStatus
  import opened SchedulerRuns
  import opened NodeRuns

  // ----- projecting a run -----

  lemma RunAppend(ss: seq<System>, fs: seq<Event>, e: Event, s: System)
    requires IsRun(ss, fs) && Enabled(ss[|fs|], e) && Apply(ss[|fs|], e) == Some(s)
    ensures IsRun(ss + [s], fs + [e])
  {
    var ss', fs' := ss + [s], fs + [e];
    assert ss'[0] == ss[0];
    forall i | 0 <= i < |fs'| ensures StepAt(ss', fs', i) {
      if i < |fs| {
        assert StepAt(ss, fs, i);
        SameStep(ss, fs, ss', fs', i);
      } else {
        assert ss'[i] == ss[|fs|] && ss'[i + 1] == s && fs'[i] == e;
      }
    }
  }

  lemma SameStep(ss: seq<System>, fs: seq<Event>, ss': seq<System>, fs': seq<Event>, i: nat)
    requires |ss| == |fs| + 1 && |ss'| == |fs'| + 1 && i < |fs| < |fs'| && ss <= ss' && fs <= fs' && StepAt(ss, fs, i)
    ensures StepAt(ss', fs', i)
  {
    assert ss'[i] == ss[i] && ss'[i + 1] == ss[i + 1] && fs'[i] == fs[i];
  }

  /** Placement `l` was uploaded by one of the events. */
  ghost predicate IsUploaded(fs: seq<Event>, l: Placement, tm: Timing) {
    exists k :: 0 <= k < |fs| && fs[k] == Add(BlockGraph(l.block, l.pid, tm, l.first))
  }

  /** The run of the two cores that leads to `n`. */
  ghost predicate LeadsTo(ss: seq<System>, fs: seq<Event>, n: Node) {
    && IsRun(ss, fs) && ss[|fs|] == n.sys
    && forall l :: l in n.log ==> l.pid in n.programs && IsUploaded(fs, l, n.programs[l.pid].timing)
  }

  lemma UploadedStays(fs: seq<Event>, e: Event, l: Placement, tm: Timing)
    requires IsUploaded(fs, l, tm)
    ensures IsUploaded(fs + [e], l, tm)
  {
    var k :| 0 <= k < |fs| && fs[k] == Add(BlockGraph(l.block, l.pid, tm, l.first));
    assert (fs + [e])[k] == fs[k];
  }

  lemma RunStepLeads(ss: seq<System>, fs: seq<Event>, n: Node, e: Event)
    requires LeadsTo(ss, fs, n) && Can(n, Run(e))
    ensures LeadsTo(ss + [Apply(n.sys, e).value], fs + [e], Next(n, Run(e)))
  {
    RunAppend(ss, fs, e, Apply(n.sys, e).value);
    forall l | l in n.log ensures l.pid in n.programs && IsUploaded(fs + [e], l, n.programs[l.pid].timing) {
      UploadedStays(fs, e, l, n.programs[l.pid].timing);
    }
  }

  lemma PlacingLeads(ss: seq<System>, fs: seq<Event>, n: Node, n': Node, l: Placement, h: Graph)
    requires LeadsTo(ss, fs, n) && l.pid in n.programs && n'.programs == n.programs && n'.log == n.log + [l]
    requires h == BlockGraph(l.block, l.pid, n.programs[l.pid].timing, l.first)
    requires Enabled(n.sys, Add(h)) && Apply(n.sys, Add(h)) == Some(n'.sys)
    ensures LeadsTo(ss + [n'.sys], fs + [Add(h)], n')
  {
    var fs' := fs + [Add(h)];
    RunAppend(ss, fs, Add(h), n'.sys);
    forall k | k in n'.log ensures k.pid in n'.programs && IsUploaded(fs', k, n'.programs[k.pid].timing) {
      if k in n.log {
        UploadedStays(fs, Add(h), k, n.programs[k.pid].timing);
      } else {
        assert fs'[|fs|] == Add(h);
      }
    }
  }

  lemma PlaceUploads(n: Node, l: Placement, h: Graph)
    requires NodeInv(n) && l.pid in n.programs && l.pid in n.index &&
             l.index == n.index[l.pid] < |n.programs[l.pid].blocks|
    requires l.block == n.programs[l.pid].blocks[l.index] && l.first == n.counter
    requires h == BlockGraph(l.block, l.pid, n.programs[l.pid].timing, l.first)
    ensures Enabled(n.sys, Add(h)) && Apply(n.sys, Add(h)) == Some(Place(n, l.pid).sys)
    ensures Place(n, l.pid).programs == n.programs && Place(n, l.pid).log == n.log + [l]
  {
    PlaceFields(n, l);
    FreshIds(n, l.block);
    UploadKeepsSystem(n.sys, h);
  }

  lemma PlaceLeads(ss: seq<System>, fs: seq<Event>, n: Node, pid: int) returns (ss': seq<System>, fs': seq<Event>)
    requires NodeInv(n) && LeadsTo(ss, fs, n) && pid in n.programs && pid in n.index && MayPlace(n, pid)
    ensures LeadsTo(ss', fs', Place(n, pid))
  {
    var l := Placement(pid, n.index[pid], n.programs[pid].blocks[n.index[pid]], n.counter);
    var h := BlockGraph(l.block, pid, n.programs[pid].timing, l.first);
    PlaceUploads(n, l, h);
    PlacingLeads(ss, fs, n, Place(n, pid), l, h);
    ss', fs' := ss + [Place(n, pid).sys], fs + [Add(h)];
  }

  lemma SameSystemLeads(ss: seq<System>, fs: seq<Event>, n: Node, n': Node)
    requires LeadsTo(ss, fs, n) && n'.sys == n.sys && n'.log == n.log
    requires forall pid :: pid in n.programs ==> pid in n'.programs && n'.programs[pid] == n.programs[pid]
    ensures LeadsTo(ss, fs, n')
  {
  }

  lemma ScheduleLeads(ss: seq<System>, fs: seq<Event>, n: Node, pid: int) returns (ss': seq<System>, fs': seq<Event>)
    requires NodeInv(n) && LeadsTo(ss, fs, n) && Can(n, Schedule(pid))
    ensures LeadsTo(ss', fs', Next(n, Schedule(pid)))
  {
    var m := TakeJump(n, pid);
    SameSystemKeeps(n, m);
    SameSystemLeads(ss, fs, n, m);
    ss', fs' := ss, fs;
    if MayPlace(m, pid) {
      ss', fs' := PlaceLeads(ss, fs, m, pid);
    }
  }

  lemma NodeStepLeads(ss: seq<System>, fs: seq<Event>, n: Node, e: NodeEvent)
    returns (ss': seq<System>, fs': seq<Event>)
    requires NodeInv(n) && LeadsTo(ss, fs, n) && Can(n, e)
    ensures LeadsTo(ss', fs', Next(n, e))
  {
    ss', fs' := ss, fs;
    match e
    case Submit(pid, instance) => SameSystemLeads(ss, fs, n, Next(n, e));
    case Jump(pid, target) => SameSystemLeads(ss, fs, n, Next(n, e));
    case Schedule(pid) => ss', fs' := ScheduleLeads(ss, fs, n, pid);
    case Run(event) =>
      RunStepLeads(ss, fs, n, event);
      ss', fs' := ss + [Apply(n.sys, event).value], fs + [event];
  }

  /** Every node of a run is reached by a run of the two cores, in which each block that
      was handed out is uploaded. */
  lemma {:induction false} NodeRunProjects(ns: seq<Node>, es: seq<NodeEvent>, i: nat)
    returns (ss: seq<System>, fs: seq<Event>)
    requires IsNodeRun(ns, es) && i < |ns|
    ensures LeadsTo(ss, fs, ns[i])
    decreases i
  {
    if i == 0 {
      ss, fs := [TwoCore.Initial], [];
    } else {
      ss, fs := NodeRunProjects(ns, es, i - 1);
      NodeRunKeeps(ns, es, i - 1);
      assert NodeStep(ns, es, i - 1);
      ss, fs := NodeStepLeads(ss, fs, ns[i - 1], es[i - 1]);
    }
  }

  // ----- what follows for the node -----

  /** In every state of the node, each core has exactly those of its tasks ready whose
      predecessors have all finished. */
  lemma NodeCoresRefineFullGraph(ns: seq<Node>, es: seq<NodeEvent>, i: nat, proc: ProcessorType)
    requires IsNodeRun(ns, es) && i < |ns|
    ensures Roots(Polled(ns[i].sys, proc), false) == Pick(ns[i].sys.full.order, ReadySet(ns[i].sys, proc))
  {
    var ss, fs := NodeRunProjects(ns, es, i);
    SplitGraphsRefineFullGraph(ss, fs, |fs|, proc);
  }

  /** The node never deadlocks: while a task that was handed out is unfinished, one of the
      cores is running or has a ready task. */
  lemma NodeIsDeadlockFree(ns: seq<Node>, es: seq<NodeEvent>, i: nat, t: int)
    requires IsNodeRun(ns, es) && i < |ns|
    requires t in ns[i].sys.full.tasks && t !in ns[i].sys.history
    ensures CanWork(ns[i].sys, CPU) || CanWork(ns[i].sys, QPU)
  {
    var ss, fs := NodeRunProjects(ns, es, i);
    DeadlockFree(ss, fs, |fs|, t);
  }

  lemma ReadyAfterUpload(ss: seq<System>, fs: seq<Event>, l: Placement, tm: Timing, proc: ProcessorType, t: int)
    requires IsRun(ss, fs) && IsUploaded(fs, l, tm) && t in Roots(Polled(ss[|fs|], proc), false)
    requires Ancestor(BlockGraph(l.block, l.pid, tm, l.first).tasks, l.first, t)
    ensures l.first in ss[|fs|].history
  {
    var k :| 0 <= k < |fs| && fs[k] == Add(BlockGraph(l.block, l.pid, tm, l.first));
    ReadyAfterAncestors(ss, fs, k, |fs|, proc, l.first, t);
  }

  /** Block by block too, a pointer is written before it is read: when a task that reads
      one is ready, the pre-call task of its block has finished. */
  lemma NodePointersAreWritten(ns: seq<Node>, es: seq<NodeEvent>, i: nat, l: Placement, proc: ProcessorType, t: int)
    requires IsNodeRun(ns, es) && i < |ns| && l in ns[i].log && l.pid in ns[i].programs
    requires Connected(l.block) && t in l.Tasks() && t in Roots(Polled(ns[i].sys, proc), false)
    requires Reads(TaskAt(l.block, l.pid, ns[i].programs[l.pid].timing, l.first, t).kind).Some?
    ensures l.first in ns[i].sys.history
    ensures Writes(TaskAt(l.block, l.pid, ns[i].programs[l.pid].timing, l.first, l.first).kind) ==
            Reads(TaskAt(l.block, l.pid, ns[i].programs[l.pid].timing, l.first, t).kind)
  {
    var tm := ns[i].programs[l.pid].timing;
    var ss, fs := NodeRunProjects(ns, es, i);
    ReadersShareTheEntry(l.block, l.pid, tm, l.first, t);
    EntryPrecedes(l.block, l.pid, tm, l.first, t);
    ReadyAfterUpload(ss, fs, l, tm, proc, t);
  }

  /** Neither scheduler of the node ever raises. */
  lemma NodeSchedulersNeverRaise(ns: seq<Node>, es: seq<NodeEvent>, i: nat, cpu: CpuInput, qpu: QpuInput,
                                 useDeadlines: bool,
                                 deterministic: bool, status: SchedulerStatus, raised: bool)
    requires IsNodeRun(ns, es) && i < |ns| && BinsAreLate(Polled(ns[i].sys, QPU), qpu)
    requires CpuUpdated(Polled(ns[i].sys, CPU), cpu, useDeadlines, deterministic, status, raised) ||
             QpuUpdated(Polled(ns[i].sys, QPU), qpu, useDeadlines, deterministic, status, raised)
    ensures !raised
  {
    var ss, fs := NodeRunProjects(ns, es, i);
    if CpuUpdated(Polled(ns[i].sys, CPU), cpu, useDeadlines, deterministic, status, raised) {
      CpuNeverRaisesInRuns(ss, fs, |fs|, cpu, useDeadlines, deterministic, status, raised);
    } else {
      QpuNeverRaisesInRuns(ss, fs, |fs|, qpu, useDeadlines, deterministic, status, raised);
    }
  }
}
