/** Which block of a process comes next, over whole runs of the node with jumps
    (qoala/sim/scheduler.py:492-551). */
module NodeJumps {
  import opened Tasks
  import opened GraphOps
  import opened TwoCore
  import opened Programs
  import opened NodeRuns

  /** The host has asked process `pid` to go on with block `target`. */
  ghost predicate Pending(n: Node, pid: int, target: int) {
    target >= 0 && pid in n.jumps && n.jumps[pid] == target
  }

  ghost predicate NonePending(n: Node, pid: int) {
    pid in n.jumps ==> n.jumps[pid] < 0
  }

  /** The block that process `pid` goes on with. */
  ghost predicate GoesOnWith(n: Node, pid: int, k: int) {
    && pid in n.programs && pid in n.index
    && (Pending(n, pid, k) || (NonePending(n, pid) && n.index[pid] == k))
  }

  // ----- one step -----

  lemma TakenJump(n: Node, pid: int, k: int)
    requires GoesOnWith(n, pid, k)
    ensures var m := TakeJump(n, pid);
            && m == n.(index := n.index[pid := m.index[pid]], jumps := m.jumps)
            && pid in m.programs && pid in m.index && m.index[pid] == k && NonePending(m, pid)
  {
    assert n.index[pid := n.index[pid]] == n.index;
  }

  /** The block that was placed. */
  ghost function NextBlock(n: Node, pid: int, k: nat): Placement
    requires pid in n.programs && k < |n.programs[pid].blocks|
  {
    Placement(pid, k, n.programs[pid].blocks[k], n.counter)
  }

  lemma ScheduledFields(n: Node, pid: int, k: int)
    requires GoesOnWith(n, pid, k) && NodeInv(n)
    ensures var n' := Scheduled(n, pid);
            if 0 <= k < |n.programs[pid].blocks| && !HasTask(n.sys.cpu, pid) then
              n'.log == n.log + [NextBlock(n, pid, k)] && GoesOnWith(n', pid, k + 1)
            else
              n'.log == n.log && n'.sys == n.sys && GoesOnWith(n', pid, k)
    ensures Scheduled(n, pid).programs == n.programs && NonePending(Scheduled(n, pid), pid)
  {
    TakenJump(n, pid, k);
    var m := TakeJump(n, pid);
    if !HasTask(n.sys.cpu, pid) {
      QpuGuardHolds(n, pid);
    }
    if MayPlace(m, pid) {
      PlaceFields(m, NextBlock(m, pid, k));
    }
  }

  /** A block is handed out exactly if there is one to go on with and the CPU core has no
      task of the process; it is the one that was asked for, or the next in line. */
  lemma HandsOutIff(ns: seq<Node>, es: seq<NodeEvent>, i: nat, pid: int, k: int)
    requires IsNodeRun(ns, es) && i < |es| && es[i] == Schedule(pid) && GoesOnWith(ns[i], pid, k)
    ensures ns[i + 1].log != ns[i].log <==>
              0 <= k < |ns[i].programs[pid].blocks| && !HasTask(ns[i].sys.cpu, pid)
    ensures ns[i + 1].log != ns[i].log ==>
              && ns[i + 1].log == ns[i].log + [Placement(pid, k, ns[i].programs[pid].blocks[k], ns[i].counter)]
              && GoesOnWith(ns[i + 1], pid, k + 1)
    ensures ns[i + 1].log == ns[i].log ==> ns[i + 1].sys == ns[i].sys && GoesOnWith(ns[i + 1], pid, k)
    ensures NonePending(ns[i + 1], pid)
  {
    NodeRunKeeps(ns, es, i);
    assert NodeStep(ns, es, i);
    ScheduledFields(ns[i], pid, k);
  }

  // ----- over a run -----

  /** Event `i` hands a block of process `pid` to the cores. */
  ghost predicate HandsOut(ns: seq<Node>, es: seq<NodeEvent>, i: nat, pid: int)
    requires |ns| == |es| + 1 && i < |es|
  {
    es[i] == Schedule(pid) && ns[i + 1].log != ns[i].log
  }

  ghost predicate HandsOutBlock(ns: seq<Node>, es: seq<NodeEvent>, i: nat, pid: int, k: int)
    requires |ns| == |es| + 1 && i < |es|
  {
    && HandsOut(ns, es, i, pid) && |ns[i + 1].log| == |ns[i].log| + 1
    && ns[i + 1].log[|ns[i].log|].pid == pid && ns[i + 1].log[|ns[i].log|].index == k
  }

  /** Neither does the host ask for a block of `pid`, nor is one handed out. */
  ghost predicate Quiet(ns: seq<Node>, es: seq<NodeEvent>, from: nat, to: nat, pid: int)
    requires |ns| == |es| + 1 && to <= |es|
  {
    forall i: nat :: from <= i < to ==> !HandsOut(ns, es, i, pid) && !(es[i].Jump? && es[i].pid == pid)
  }

  lemma OtherEventKeepsCourse(n: Node, e: NodeEvent, pid: int, k: int)
    requires Can(n, e) && GoesOnWith(n, pid, k)
    requires e != Schedule(pid) && !(e.Jump? && e.pid == pid)
    ensures GoesOnWith(Next(n, e), pid, k)
  {
    if e.Schedule? {
      var m := TakeJump(n, e.pid);
      if MayPlace(m, e.pid) {
        PlaceFields(m, NextBlock(m, e.pid, m.index[e.pid]));
      }
    }
  }

  lemma StepKeepsCourse(ns: seq<Node>, es: seq<NodeEvent>, i: nat, pid: int, k: int)
    requires IsNodeRun(ns, es) && i < |es| && GoesOnWith(ns[i], pid, k)
    requires !HandsOut(ns, es, i, pid) && !(es[i].Jump? && es[i].pid == pid)
    ensures GoesOnWith(ns[i + 1], pid, k)
  {
    assert NodeStep(ns, es, i);
    if es[i] == Schedule(pid) {
      HandsOutIff(ns, es, i, pid, k);
    } else {
      OtherEventKeepsCourse(ns[i], es[i], pid, k);
    }
  }

  lemma {:induction false} CourseStays(ns: seq<Node>, es: seq<NodeEvent>, i: nat, j: nat, pid: int, k: int)
    requires IsNodeRun(ns, es) && i <= j <= |es| && Quiet(ns, es, i, j, pid) && GoesOnWith(ns[i], pid, k)
    ensures GoesOnWith(ns[j], pid, k)
    decreases j
  {
    if i < j {
      CourseStays(ns, es, i, j - 1, pid, k);
      StepKeepsCourse(ns, es, j - 1, pid, k);
    }
  }

  lemma HandsOutCourse(ns: seq<Node>, es: seq<NodeEvent>, i: nat, j: nat, pid: int, k: int)
    requires IsNodeRun(ns, es) && i <= j < |es| && Quiet(ns, es, i, j, pid) && GoesOnWith(ns[i], pid, k)
    requires HandsOut(ns, es, j, pid)
    ensures HandsOutBlock(ns, es, j, pid, k) && GoesOnWith(ns[j + 1], pid, k + 1)
  {
    CourseStays(ns, es, i, j, pid, k);
    HandsOutIff(ns, es, j, pid, k);
  }

  /** Two blocks of a process that are handed out one after the other, without a jump in
      between, are consecutive. */
  lemma NextBlockFollows(ns: seq<Node>, es: seq<NodeEvent>, i: nat, j: nat, pid: int, k: int)
    requires IsNodeRun(ns, es) && i < j < |es| && HandsOutBlock(ns, es, i, pid, k) && HandsOut(ns, es, j, pid)
    requires Quiet(ns, es, i + 1, j, pid)
    ensures HandsOutBlock(ns, es, j, pid, k + 1)
  {
    var at := Course(ns, es, i, pid);
    HandsOutCourse(ns, es, i, i, pid, at);
    HandsOutCourse(ns, es, i + 1, j, pid, k + 1);
  }

  lemma Course(ns: seq<Node>, es: seq<NodeEvent>, i: nat, pid: int) returns (k: int)
    requires IsNodeRun(ns, es) && i < |es| && es[i] == Schedule(pid)
    ensures GoesOnWith(ns[i], pid, k)
  {
    assert NodeStep(ns, es, i);
    k := if Jumped(ns[i], pid) then ns[i].jumps[pid] else ns[i].index[pid];
  }

  lemma JumpSetsCourse(ns: seq<Node>, es: seq<NodeEvent>, i: nat)
    requires IsNodeRun(ns, es) && i < |es| && es[i].Jump? && es[i].target >= 0
    ensures GoesOnWith(ns[i + 1], es[i].pid, es[i].target)
  {
    assert NodeStep(ns, es, i);
    NodeRunKeeps(ns, es, i);
  }

  /** The first block that is handed out after a jump is the one the host asked for. */
  lemma JumpReachesItsTarget(ns: seq<Node>, es: seq<NodeEvent>, i: nat, j: nat, pid: int)
    requires IsNodeRun(ns, es) && i < j < |es| && es[i].Jump? && es[i].pid == pid && es[i].target >= 0
    requires Quiet(ns, es, i + 1, j, pid) && HandsOut(ns, es, j, pid)
    ensures HandsOutBlock(ns, es, j, pid, es[i].target)
  {
    JumpSetsCourse(ns, es, i);
    HandsOutCourse(ns, es, i + 1, j, pid, es[i].target);
  }

  lemma {:induction false} JumpsAreOfProcesses(ns: seq<Node>, es: seq<NodeEvent>, i: nat)
    requires IsNodeRun(ns, es) && i < |ns|
    ensures ns[i].jumps.Keys <= ns[i].programs.Keys
    decreases i
  {
    if i > 0 {
      JumpsAreOfProcesses(ns, es, i - 1);
      assert NodeStep(ns, es, i - 1);
      JumpsStayOfProcesses(ns[i - 1], es[i - 1]);
    }
  }

  lemma JumpsStayOfProcesses(n: Node, e: NodeEvent)
    requires Can(n, e) && n.jumps.Keys <= n.programs.Keys
    ensures Next(n, e).jumps.Keys <= Next(n, e).programs.Keys
  {
    if e.Schedule? {
      var m := TakeJump(n, e.pid);
      if MayPlace(m, e.pid) {
        PlaceFields(m, NextBlock(m, e.pid, m.index[e.pid]));
      }
    }
  }

  /** A process starts with its first block, unless the host asks for another. */
  lemma FirstBlockIsFirst(ns: seq<Node>, es: seq<NodeEvent>, i: nat, j: nat, pid: int)
    requires IsNodeRun(ns, es) && i < j < |es| && es[i].Submit? && es[i].pid == pid
    requires Quiet(ns, es, i + 1, j, pid) && HandsOut(ns, es, j, pid)
    ensures HandsOutBlock(ns, es, j, pid, 0)
  {
    assert NodeStep(ns, es, i);
    JumpsAreOfProcesses(ns, es, i);
    HandsOutCourse(ns, es, i + 1, j, pid, 0);
  }

  lemma {:induction false} PastEndStays(ns: seq<Node>, es: seq<NodeEvent>, i: nat, j: nat, pid: int, k: int)
    requires IsNodeRun(ns, es) && i <= j <= |es| && GoesOnWith(ns[i], pid, k) && k >= |ns[i].programs[pid].blocks|
    requires forall l: nat :: i <= l < j ==> !(es[l].Jump? && es[l].pid == pid)
    ensures Quiet(ns, es, i, j, pid) && GoesOnWith(ns[j], pid, k) && ns[j].programs[pid] == ns[i].programs[pid]
    decreases j
  {
    if i < j {
      PastEndStays(ns, es, i, j - 1, pid, k);
      assert NodeStep(ns, es, j - 1);
      ProgramStays(ns[j - 1], es[j - 1], pid);
      if es[j - 1] == Schedule(pid) {
        HandsOutIff(ns, es, j - 1, pid, k);
      }
      StepKeepsCourse(ns, es, j - 1, pid, k);
    }
  }

  lemma ProgramStays(n: Node, e: NodeEvent, pid: int)
    requires Can(n, e) && pid in n.programs
    ensures pid in Next(n, e).programs && Next(n, e).programs[pid] == n.programs[pid]
  {
    if e.Schedule? {
      var m := TakeJump(n, e.pid);
      if MayPlace(m, e.pid) {
        PlaceFields(m, NextBlock(m, e.pid, m.index[e.pid]));
      }
    }
  }

  /** After a jump past the last block, nothing of the process is handed out any more, until
      the host asks for another block. */
  lemma JumpPastEndStops(ns: seq<Node>, es: seq<NodeEvent>, i: nat, j: nat, pid: int)
    requires IsNodeRun(ns, es) && i < j <= |es| && es[i].Jump? && es[i].pid == pid
    requires pid in ns[i].programs && es[i].target >= |ns[i].programs[pid].blocks|
    requires forall l: nat :: i < l < j ==> !(es[l].Jump? && es[l].pid == pid)
    ensures forall l: nat :: i < l < j ==> !HandsOut(ns, es, l, pid)
  {
    JumpSetsCourse(ns, es, i);
    assert NodeStep(ns, es, i);
    PastEndStays(ns, es, i + 1, j, pid, es[i].target);
  }
}
