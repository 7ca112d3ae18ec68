/** Tasks and task graphs as values (qoala/runtime/task.py). */
module Tasks {

  datatype Option<+T> = None | Some(value: T)

  datatype ProcessorType = CPU | QPU {
    function Other(): ProcessorType {
      if CPU? then QPU else CPU
    }
  }

  /** The task classes. Those that share an lrcall or rrcall carry the pointer to it. */
  datatype TaskKind =
    | HostLocal(block: string)
    | HostEvent(block: string)
    | LocalRoutine(block: string, ptr: int)
    | PreCall(block: string, ptr: int)
    | PostCall(block: string, ptr: int)
    | SinglePair(pair: int, ptr: int)
    | MultiPair(ptr: int)
    | SinglePairCallback(callback: string, pair: int, ptr: int)
    | MultiPairCallback(callback: string, ptr: int)

  datatype Task = Task(id: int, pid: int, kind: TaskKind, duration: Option<int>) {
    function Processor(): ProcessorType {
      match kind
      case HostLocal(_) => CPU
      case HostEvent(_) => CPU
      case PreCall(_, _) => CPU
      case PostCall(_, _) => CPU
      case _ => QPU
    }

    predicate IsEpr() {
      kind.SinglePair? || kind.MultiPair?
    }

    predicate IsEvent() {
      kind.HostEvent?
    }
  }

  datatype TaskInfo = TaskInfo(
    task: Task,
    preds: set<int>,
    extPreds: set<int>,
    succs: set<int>,
    deadline: Option<int>,
    relDeadlines: map<int, int>,
    extRelDeadlines: map<int, int>,
    startTime: Option<int>)

  function OnlyTask(task: Task): TaskInfo {
    TaskInfo(task, {}, {}, {}, None, map[], map[], None)
  }

  type TaskMap = map<int, TaskInfo>

  /** A task dictionary together with its insertion order. */
  datatype Graph = Graph(order: seq<int>, tasks: TaskMap)

  const EmptyGraph := Graph([], map[])

  ghost predicate NoDup(s: seq<int>) {
    forall i, j :: 0 <= i < j < |s| ==> s[i] != s[j]
  }

  function Elements(s: seq<int>): (r: set<int>)
    ensures forall x :: x in r <==> x in s
  {
    set x | x in s
  }

  /** The order lists every key exactly once. */
  ghost predicate Ordered(g: Graph) {
    NoDup(g.order) && Elements(g.order) == g.tasks.Keys
  }

  /** The elements of `s` that are in `keep`, in the order of `s`. */
  function Pick(s: seq<int>, keep: set<int>): (r: seq<int>)
    ensures forall x :: x in r <==> x in s && x in keep
    ensures |r| <= |s|
  {
    if s == [] then []
    else if s[0] in keep then [s[0]] + Pick(s[1..], keep)
    else Pick(s[1..], keep)
  }

  lemma {:induction false} PickNoDup(s: seq<int>, keep: set<int>)
    requires NoDup(s)
    ensures NoDup(Pick(s, keep))
  {
    if s == [] {
    } else {
      PickNoDup(s[1..], keep);
      var rest := Pick(s[1..], keep);
      assert s[0] !in s[1..];
      if s[0] in keep {
        var r := [s[0]] + rest;
        forall i, j | 0 <= i < j < |r| ensures r[i] != r[j] {
          assert r[j] == rest[j - 1] && rest[j - 1] in rest;
        }
      }
    }
  }

  lemma {:induction false} PickAgree(s: seq<int>, a: set<int>, b: set<int>)
    requires forall x :: x in s ==> (x in a <==> x in b)
    ensures Pick(s, a) == Pick(s, b)
  {
    if s == [] {
    } else {
      var x := s[0];
      assert x in s && (x in a <==> x in b);
      PickAgree(s[1..], a, b);
    }
  }

  lemma {:induction false} PickPick(s: seq<int>, a: set<int>, b: set<int>)
    ensures Pick(Pick(s, a), b) == Pick(s, a * b)
  {
    if s == [] {
    } else {
      PickPick(s[1..], a, b);
      if s[0] in a {
        var r := [s[0]] + Pick(s[1..], a);
        assert r[1..] == Pick(s[1..], a);
      }
    }
  }

  lemma {:induction false} PickConcat(s: seq<int>, t: seq<int>, a: set<int>)
    ensures Pick(s + t, a) == Pick(s, a) + Pick(t, a)
  {
    if s == [] {
      assert s + t == t;
    } else {
      assert (s + t)[1..] == s[1..] + t;
      PickConcat(s[1..], t, a);
    }
  }

  lemma {:induction false} PickAll(s: seq<int>, keep: set<int>)
    requires forall x :: x in s ==> x in keep
    ensures Pick(s, keep) == s
  {
    if s == [] {
    } else {
      var x := s[0];
      assert x in s;
      assert forall y :: y in s[1..] ==> y in s;
      PickAll(s[1..], keep);
    }
  }

  lemma NonEmptyHas(s: set<int>)
    requires s != {}
    ensures exists x :: x in s
  {
    if forall x :: x !in s {
      assert false;
    }
  }

  /** The order in which a set is traversed is not determined. */
  method AnyOf(s: set<int>) returns (x: int)
    requires s != {}
    ensures x in s
  {
    NonEmptyHas(s);
    x :| x in s;
  }

  lemma NoDupAppend(s: seq<int>, x: int)
    requires NoDup(s) && x !in s
    ensures NoDup(s + [x])
  {
  }
}
