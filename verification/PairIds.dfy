/** The virtual ids of the pairs of a request (qoala/lang/request.py:78-94,
    qoala/sim/scheduler.py:1065-1088). */
module PairIds {
  import opened Tasks
  import opened QubitMemory
  import opened MemoryManagers
  import opened Metadata

  /** The ids of the first `n` pairs; None if one of them has none. */
  function IdsOf(mapping: IdMapping, n: nat): (r: Option<seq<int>>)
    ensures r.Some? ==> |r.value| == n && forall i :: 0 <= i < n ==> GetId(mapping, i) == Some(r.value[i])
    ensures r.None? ==> exists i: nat :: i < n && GetId(mapping, i).None?
  {
    if n == 0 then Some([])
    else
      var before := IdsOf(mapping, n - 1);
      var last := GetId(mapping, n - 1);
      if before.None? || last.None? then None else Some(before.value + [last.value])
  }

  /** `range` of a negative number is empty. */
  function PairCount(pairs: int): nat {
    if pairs > 0 then pairs else 0
  }

  method VirtualIds(mapping: IdMapping, pairs: int) returns (ids: Option<seq<int>>)
    ensures ids == IdsOf(mapping, PairCount(pairs))
  {
    var all := [];
    for i := 0 to PairCount(pairs)
      invariant IdsOf(mapping, i) == Some(all)
    {
      var id := GetId(mapping, i);
      if id.None? {
        return None;
      }
      all := all + [id.value];
    }
    ids := Some(all);
  }

  /** The mapping gives pair `i` the id: all pairs the same one, or one after the other from
      the first, or each its own; a template that has not been filled in gives none. */
  ghost predicate Gives(mapping: IdMapping, i: nat, id: int) {
    match mapping
    case All(Number(v)) => id == v
    case Increment(Number(first)) => id == first + i
    case Custom(values) => i < |values| && id == values[i]
    case _ => false
  }

  ghost predicate HasId(mapping: IdMapping, i: nat) {
    exists id :: Gives(mapping, i, id)
  }

  lemma HasIdIff(mapping: IdMapping, i: nat)
    ensures HasId(mapping, i) <==> GetId(mapping, i).Some?
  {
    if GetId(mapping, i).Some? {
      GetIdGives(mapping, i, GetId(mapping, i).value);
    }
  }

  lemma GetIdGives(mapping: IdMapping, i: nat, id: int)
    ensures GetId(mapping, i) == Some(id) <==> Gives(mapping, i, id)
  {
  }

  /** The ids of the pairs are those that the mapping gives, and there are none exactly if it
      leaves one of the pairs without. */
  lemma IdsAreGiven(mapping: IdMapping, n: nat)
    ensures IdsOf(mapping, n).Some? <==> forall i: nat :: i < n ==> HasId(mapping, i)
    ensures IdsOf(mapping, n).Some? ==> forall i: nat :: i < n ==> Gives(mapping, i, IdsOf(mapping, n).value[i])
  {
    var ids := IdsOf(mapping, n);
    forall i: nat ensures HasId(mapping, i) <==> GetId(mapping, i).Some? {
      HasIdIff(mapping, i);
    }
    if ids.Some? {
      forall i: nat | i < n ensures Gives(mapping, i, ids.value[i]) {
        GetIdGives(mapping, i, ids.value[i]);
      }
    } else {
      var i: nat :| i < n && GetId(mapping, i).None?;
      assert !HasId(mapping, i);
    }
  }

  /** The probe of a multi-pair task; None models the exceptions of `get_id`. */
  method ProbeMultiPair(mem: MemoryManager, pid: int, mapping: IdMapping, pairs: int) returns (available: Option<bool>)
    requires mem.IsValid() && pid in mem.units
    modifies mem
    ensures mem.IsValid() && mem.Value() == old(mem.Value())
    ensures available.None? <==> exists i: nat :: i < PairCount(pairs) && !HasId(mapping, i)
    ensures available == Some(true) <==>
              && (forall i: nat :: i < PairCount(pairs) ==> HasId(mapping, i))
              && forall i: nat, id :: i < PairCount(pairs) && Gives(mapping, i, id) ==>
                   Allocatable(mem.Value(), mem.device, pid, id)
  {
    var ids := VirtualIds(mapping, pairs);
    IdsAreGiven(mapping, PairCount(pairs));
    if ids.None? {
      return None;
    }
    var one := mem.ProbePairs(pid, ids.value);
    available := Some(one);
    forall i: nat, id | i < PairCount(pairs) && Gives(mapping, i, id) ensures id == ids.value[i] {
    }
  }

  /** The ids of the first `n` pairs are distinct. */
  predicate GivesDistinctIds(mapping: IdMapping, n: nat) {
    match mapping
    case All(_) => n <= 1
    case Increment(_) => true
    case Custom(values) => n <= |values| && forall i, j :: 0 <= i < j < n ==> values[i] != values[j]
  }

  lemma DistinctIff(mapping: IdMapping, n: nat)
    requires IdsOf(mapping, n).Some?
    ensures NoDup(IdsOf(mapping, n).value) <==> GivesDistinctIds(mapping, n)
  {
    var ids := IdsOf(mapping, n).value;
    match mapping
    case All(v) =>
      if n > 1 {
        assert ids[0] == ids[1];
      }
    case Increment(v) =>
      forall i, j | 0 <= i < j < n ensures ids[i] != ids[j] {
        assert GetId(mapping, i) == Some(ids[i]) && GetId(mapping, j) == Some(ids[j]);
      }
    case Custom(values) =>
      forall i | 0 <= i < n ensures i < |values| && ids[i] == values[i] {
        assert GetId(mapping, i) == Some(ids[i]);
      }
  }

  /** After a positive probe of a multi-pair request, keeping all its pairs succeeds exactly
      if the mapping gives distinct ids, so never for several pairs mapped to one id, and
      there are enough free qubits of each kind. */
  lemma KeepableIffDistinct(m: Maps, d: Device, pid: int, mapping: IdMapping, n: nat)
    requires pid in m.units && IdsOf(mapping, n).Some?
    requires forall i :: 0 <= i < n ==> Allocatable(m, d, pid, IdsOf(mapping, n).value[i])
    ensures Feasible(m, d, pid, IdsOf(mapping, n).value) <==>
              && GivesDistinctIds(mapping, n)
              && forall isComm :: Count(IdsOf(mapping, n).value, m.units[pid], isComm) <= |FreeOf(m, d, isComm)|
  {
    DistinctIff(mapping, n);
    FeasibleIffProbed(m, d, pid, IdsOf(mapping, n).value);
  }
}
