/** The memory manager, the resource probe of the QPU scheduler, and the pair handlers
    (qoala/sim/memmgr.py:48-169, qoala/sim/scheduler.py:1041-1112,
    qoala/sim/netstack/netstackprocessor.py:58-203). */
module MemoryManagers {
  import opened Tasks
  import opened QubitMemory

  ghost function FreeOf(m: Maps, d: Device, isComm: bool): set<int> {
    set p | p in d.Of(isComm) && IsFree(m, p)
  }

  /** How many of the ids are communication qubits, or are not. */
  function Count(ids: seq<int>, unit: UnitModule, isComm: bool): nat {
    if ids == [] then 0
    else
      var last := ids[|ids| - 1];
      Count(ids[..|ids| - 1], unit, isComm) + if last in unit && unit[last] == isComm then 1 else 0
  }

  /** The ids are known, unmapped and distinct, and there is a free qubit for each. */
  ghost predicate Feasible(m: Maps, d: Device, pid: int, ids: seq<int>) {
    && pid in m.units && NoDup(ids)
    && (forall i :: 0 <= i < |ids| ==> ids[i] in m.units[pid] && Unmapped(m, pid, ids[i]))
    && (forall isComm :: Count(ids, m.units[pid], isComm) <= |FreeOf(m, d, isComm)|)
  }

  class MemoryManager {
    const device: Device
    var units: map<int, UnitModule>
    var virtual: map<int, map<int, Option<int>>>
    var physical: map<int, Option<Location>>

    ghost function Value(): Maps
      reads this
    {
      Maps(units, virtual, physical)
    }

    ghost predicate IsValid()
      reads this
    {
      Valid(Value(), device)
    }

    constructor (device: Device)
      requires device.IsDevice()
      ensures this.device == device && IsValid()
      ensures Value() == Maps(map[], map[], map p | p in device.comm + device.mem :: None)
    {
      this.device := device;
      units, virtual := map[], map[];
      physical := map p | p in device.comm + device.mem :: None;
    }

    method AddProcess(pid: int, unit: UnitModule)
      requires IsValid() && pid !in units
      modifies this
      ensures IsValid() && Value() == QubitMemory.AddProcess(old(Value()), pid, unit)
    {
      AddingKeepsIffNothingHeld(Value(), device, pid, unit);
      units := units[pid := unit];
      virtual := virtual[pid := map v | v in unit :: None];
    }

    /** None models the AllocError. */
    method GetFreePhysId(isComm: bool) returns (phys: Option<int>)
      requires IsValid()
      ensures phys.None? ==> forall p :: p in device.Of(isComm) ==> !IsFree(Value(), p)
      ensures phys.Some? ==> phys.value in device.Of(isComm) && IsFree(Value(), phys.value)
    {
      var rest := device.Of(isComm);
      while rest != {}
        invariant rest <= device.Of(isComm)
        invariant forall p :: p in device.Of(isComm) - rest ==> !IsFree(Value(), p)
        decreases rest
      {
        var p := AnyOf(rest);
        assert p in physical.Keys;
        if physical[p].None? {
          return Some(p);
        }
        rest := rest - {p};
      }
      phys := None;
    }

    method Allocate(pid: int, virt: int) returns (phys: Option<int>)
      requires IsValid() && pid in units
      modifies this
      ensures IsValid() && Allocates(old(Value()), device, pid, virt, phys, Value())
    {
      if virt !in units[pid] {
        return None;
      }
      if virtual[pid][virt].Some? {
        return None;
      }
      phys := GetFreePhysId(units[pid][virt]);
      if phys.Some? {
        MappingKeeps(Value(), device, pid, virt, phys.value);
        physical := physical[phys.value := Some(Location(pid, virt))];
        virtual := virtual[pid := virtual[pid][virt := phys]];
      }
    }

    /** `ok` is false for the failed assertion on an unknown id and for the AllocError. */
    method Free(pid: int, virt: int) returns (ok: bool)
      requires IsValid() && pid in units
      modifies this
      ensures IsValid() && Frees(old(Value()), pid, virt, ok, Value())
    {
      if virt !in units[pid] || virtual[pid][virt].None? {
        return false;
      }
      FreeingKeeps(Value(), device, pid, virt);
      var phys := virtual[pid][virt].value;
      assert VirtIdFor(Value(), pid, phys) == Some(Some(virt));
      physical := physical[phys := None];
      virtual := virtual[pid := virtual[pid][virt := None]];
      ok := true;
    }

    // ----- the resource probe -----

    /** Allocates one id and frees it again. */
    method TryOut(pid: int, virt: int) returns (available: bool)
      requires IsValid() && pid in units
      modifies this
      ensures IsValid() && Value() == old(Value())
      ensures available <==> Allocatable(Value(), device, pid, virt)
    {
      ghost var m := Value();
      var phys := Allocate(pid, virt);
      if phys.None? {
        return false;
      }
      FreeUndoesAllocate(m, pid, virt, phys.value);
      var freed := Free(pid, virt);
      available := true;
    }

    /** For a single-pair task `ids` is one id, for a multi-pair task one per pair. The probe
        leaves the maps alone and says whether each id could be allocated on its own. */
    method ProbePairs(pid: int, ids: seq<int>) returns (available: bool)
      requires IsValid() && pid in units
      modifies this
      ensures IsValid() && Value() == old(Value())
      ensures available <==> forall i :: 0 <= i < |ids| ==> Allocatable(Value(), device, pid, ids[i])
    {
      for i := 0 to |ids|
        invariant IsValid() && Value() == old(Value())
        invariant forall j :: 0 <= j < i ==> Allocatable(Value(), device, pid, ids[j])
      {
        var one := TryOut(pid, ids[i]);
        if !one {
          return false;
        }
      }
      available := true;
    }

    /** For a local routine, ids that are mapped already need not be allocated. None models
        the exception for an id that is not in the unit module. */
    method ProbeRoutine(pid: int, ids: seq<int>) returns (available: Option<bool>)
      requires IsValid() && pid in units
      modifies this
      ensures IsValid() && Value() == old(Value())
      ensures available == Some(true) <==> forall i :: 0 <= i < |ids| ==> UsableBy(Value(), device, pid, ids[i])
      ensures available.None? ==> exists i :: 0 <= i < |ids| && ids[i] !in units[pid]
    {
      for i := 0 to |ids|
        invariant IsValid() && Value() == old(Value())
        invariant forall j :: 0 <= j < i ==> UsableBy(Value(), device, pid, ids[j])
      {
        if ids[i] !in virtual[pid] {
          return None;
        }
        if virtual[pid][ids[i]].Some? {
          continue;
        }
        var one := TryOut(pid, ids[i]);
        if !one {
          return Some(false);
        }
      }
      available := Some(true);
    }

    // ----- the handlers -----

    /** `delivered` is the answer of the entanglement distributor. */
    method HandleSinglePair(pid: int, virt: int, delivered: bool) returns (raised: bool, ok: bool)
      requires IsValid() && pid in units
      modifies this
      ensures IsValid() && raised == !Allocatable(old(Value()), device, pid, virt)
      ensures !raised ==> ok == delivered
      ensures raised || !ok ==> Value() == old(Value())
      ensures !raised && ok ==> exists phys :: Allocates(old(Value()), device, pid, virt, Some(phys), Value())
    {
      ghost var m := Value();
      var phys := Allocate(pid, virt);
      if phys.None? {
        return true, false;
      }
      if !delivered {
        FreeUndoesAllocate(m, pid, virt, phys.value);
        var freed := Free(pid, virt);
      }
      raised, ok := false, delivered;
    }

    /** One pair at a time is allocated, delivered, measured and freed. */
    method HandleMultiPairMd(pid: int, ids: seq<int>, delivered: seq<bool>, measured: seq<int>)
      returns (raised: bool, ok: bool, outcomes: seq<int>)
      requires IsValid() && pid in units && |ids| == |delivered| == |measured|
      modifies this
      ensures IsValid() && Value() == old(Value())
      ensures raised <==> exists i :: FailsAt(Value(), device, pid, ids, delivered, i)
      ensures !raised ==> (ok <==> forall i :: 0 <= i < |ids| ==> delivered[i])
      ensures !raised && ok ==> outcomes == measured
    {
      outcomes := [];
      for i := 0 to |ids|
        invariant IsValid() && Value() == old(Value())
        invariant outcomes == measured[..i]
        invariant forall j :: 0 <= j < i ==> delivered[j] && Allocatable(Value(), device, pid, ids[j])
      {
        ghost var m := Value();
        var phys := Allocate(pid, ids[i]);
        if phys.None? {
          assert FailsAt(Value(), device, pid, ids, delivered, i);
          return true, false, outcomes;
        }
        if delivered[i] {
          outcomes := outcomes + [measured[i]];
        }
        FreeUndoesAllocate(m, pid, ids[i], phys.value);
        var freed := Free(pid, ids[i]);
        if !delivered[i] {
          return false, false, outcomes;
        }
      }
      raised, ok := false, true;
    }

    /** Every pair is handled like a single pair, and keeps its qubit. So when all pairs are
        delivered, the handler raises exactly if the ids are not feasible; after a failed
        delivery only the qubit of the failing pair is freed. */
    method HandleMultiPairCk(pid: int, ids: seq<int>, delivered: seq<bool>)
      returns (raised: bool, ok: bool, ghost kept: nat)
      requires IsValid() && pid in units && |ids| == |delivered|
      modifies this
      ensures IsValid() && units == old(units)
      ensures raised ==> !Feasible(old(Value()), device, pid, ids)
      ensures ok ==> !raised && kept == |ids| && Feasible(old(Value()), device, pid, ids)
      ensures !raised && !ok ==> kept < |ids| && !delivered[kept]
      ensures kept <= |ids| && KeptFrom(old(Value()), Value(), pid, ids, kept)
    {
      ghost var m := Value();
      KeptNone(m, device, pid, ids);
      for i := 0 to |ids|
        invariant IsValid() && units == old(units) && Kept(m, Value(), device, pid, ids, i)
      {
        ghost var before := Value();
        raised, ok := HandleSinglePair(pid, ids[i], delivered[i]);
        if raised {
          StuckIsInfeasible(m, before, device, pid, ids, i);
          return true, false, i;
        }
        if !ok {
          return false, false, i;
        }
        OneMoreKept(m, before, Value(), device, pid, ids, i);
      }
      KeptAllIsFeasible(m, Value(), device, pid, ids);
      raised, ok, kept := false, true, |ids|;
    }
  }

  // ----- keeping one qubit after the other -----

  /** The maps after the first `n` ids were mapped. */
  ghost predicate KeptFrom(m: Maps, m': Maps, pid: int, ids: seq<int>, n: nat)
    requires n <= |ids|
  {
    && m'.units == m.units
    && (forall i :: 0 <= i < n ==> PhysIdFor(m', pid, ids[i]).Some? && PhysIdFor(m', pid, ids[i]).value.Some?)
    && (forall pid', v :: pid' != pid || v !in ids[..n] ==> PhysIdFor(m', pid', v) == PhysIdFor(m, pid', v))
  }

  ghost predicate WereUnmapped(m: Maps, pid: int, ids: seq<int>, n: nat)
    requires n <= |ids| && pid in m.units
  {
    forall i :: 0 <= i < n ==> ids[i] in m.units[pid] && Unmapped(m, pid, ids[i])
  }

  /** Each of the first `n` ids has taken one free qubit of its kind. */
  ghost predicate AreCounted(m: Maps, m': Maps, d: Device, pid: int, ids: seq<int>, n: nat)
    requires n <= |ids| && pid in m.units
  {
    forall isComm :: |FreeOf(m', d, isComm)| + Count(ids[..n], m.units[pid], isComm) == |FreeOf(m, d, isComm)|
  }

  ghost predicate Kept(m: Maps, m': Maps, d: Device, pid: int, ids: seq<int>, n: nat)
    requires n <= |ids| && pid in m.units
  {
    && KeptFrom(m, m', pid, ids, n) && NoDup(ids[..n])
    && WereUnmapped(m, pid, ids, n) && AreCounted(m, m', d, pid, ids, n)
  }

  lemma KeptNone(m: Maps, d: Device, pid: int, ids: seq<int>)
    requires pid in m.units
    ensures Kept(m, m, d, pid, ids, 0)
  {
  }

  lemma CountNext(ids: seq<int>, n: nat, unit: UnitModule, isComm: bool)
    requires n < |ids|
    ensures Count(ids[..n + 1], unit, isComm) ==
            Count(ids[..n], unit, isComm) + if ids[n] in unit && unit[ids[n]] == isComm then 1 else 0
  {
    assert ids[..n + 1][..n] == ids[..n];
  }

  lemma {:induction false} CountGrows(ids: seq<int>, n: nat, k: nat, unit: UnitModule, isComm: bool)
    requires n <= k <= |ids|
    ensures Count(ids[..n], unit, isComm) <= Count(ids[..k], unit, isComm)
    decreases k
  {
    if n < k {
      CountNext(ids, k - 1, unit, isComm);
      CountGrows(ids, n, k - 1, unit, isComm);
    }
  }

  lemma FreeOfMapped(m: Maps, d: Device, pid: int, virt: int, phys: int, isComm: bool)
    requires Valid(m, d) && Unmapped(m, pid, virt) && IsFree(m, phys)
    ensures FreeOf(Mapped(m, pid, virt, phys), d, isComm) == FreeOf(m, d, isComm) - {phys}
  {
  }

  lemma FreeCount(m: Maps, d: Device, pid: int, virt: int, phys: int, isComm: bool)
    requires Valid(m, d) && pid in m.units && virt in m.units[pid] && Unmapped(m, pid, virt)
    requires phys in d.Of(m.units[pid][virt]) && IsFree(m, phys)
    ensures |FreeOf(Mapped(m, pid, virt, phys), d, isComm)| + (if m.units[pid][virt] == isComm then 1 else 0) ==
            |FreeOf(m, d, isComm)|
  {
    FreeOfMapped(m, d, pid, virt, phys, isComm);
    assert phys in FreeOf(m, d, isComm) <==> m.units[pid][virt] == isComm;
  }

  lemma KeptNext(m: Maps, before: Maps, after: Maps, d: Device, pid: int, ids: seq<int>, n: nat, phys: int)
    requires n < |ids| && pid in m.units && Valid(before, d) && Kept(m, before, d, pid, ids, n)
    requires Allocates(before, d, pid, ids[n], Some(phys), after)
    ensures Kept(m, after, d, pid, ids, n + 1)
  {
    NextIsNew(before, pid, ids, n);
    KeptFromNext(m, before, after, d, pid, ids, n, phys);
    forall isComm ensures |FreeOf(after, d, isComm)| + Count(ids[..n + 1], m.units[pid], isComm) == |FreeOf(m, d, isComm)| {
      FreeCount(before, d, pid, ids[n], phys, isComm);
      CountNext(ids, n, m.units[pid], isComm);
    }
  }

  lemma OneMoreKept(m: Maps, before: Maps, after: Maps, d: Device, pid: int, ids: seq<int>, n: nat)
    requires n < |ids| && pid in m.units && Valid(before, d) && Kept(m, before, d, pid, ids, n)
    requires exists phys :: Allocates(before, d, pid, ids[n], Some(phys), after)
    ensures Kept(m, after, d, pid, ids, n + 1)
  {
    var phys :| Allocates(before, d, pid, ids[n], Some(phys), after);
    KeptNext(m, before, after, d, pid, ids, n, phys);
  }

  lemma NextIsNew(m: Maps, pid: int, ids: seq<int>, n: nat)
    requires n < |ids| && Unmapped(m, pid, ids[n]) && NoDup(ids[..n])
    requires forall i :: 0 <= i < n ==> PhysIdFor(m, pid, ids[i]).Some? && PhysIdFor(m, pid, ids[i]).value.Some?
    ensures ids[n] !in ids[..n] && NoDup(ids[..n + 1])
  {
    assert ids[n] !in ids[..n] by {
      assert forall i :: 0 <= i < n ==> !Unmapped(m, pid, ids[i]);
    }
    assert ids[..n + 1] == ids[..n] + [ids[n]];
    NoDupAppend(ids[..n], ids[n]);
  }

  lemma KeptFromNext(m: Maps, before: Maps, after: Maps, d: Device, pid: int, ids: seq<int>, n: nat, phys: int)
    requires n < |ids| && pid in m.units && Valid(before, d) && KeptFrom(m, before, pid, ids, n)
    requires Allocates(before, d, pid, ids[n], Some(phys), after) && ids[n] !in ids[..n]
    ensures KeptFrom(m, after, pid, ids, n + 1)
  {
    assert ids[..n + 1] == ids[..n] + [ids[n]];
    forall pid', w ensures PhysIdFor(after, pid', w) ==
                           if pid' == pid && w == ids[n] then Some(Some(phys)) else PhysIdFor(before, pid', w)
    {
      PhysIdAfterMapping(before, d, pid, ids[n], phys, pid', w);
    }
  }

  lemma FeasibleGoesOn(m: Maps, m': Maps, d: Device, pid: int, ids: seq<int>, n: nat)
    requires n < |ids| && pid in m.units && Valid(m', d) && Kept(m, m', d, pid, ids, n) && Feasible(m, d, pid, ids)
    ensures Allocatable(m', d, pid, ids[n])
  {
    var isComm := m.units[pid][ids[n]];
    CountNext(ids, n, m.units[pid], isComm);
    assert ids[..|ids|] == ids;
    CountGrows(ids, n + 1, |ids|, m.units[pid], isComm);
    assert |FreeOf(m', d, isComm)| > 0;
    NonEmptyHas(FreeOf(m', d, isComm));
    assert ids[n] !in ids[..n];
  }

  lemma StuckIsInfeasible(m: Maps, m': Maps, d: Device, pid: int, ids: seq<int>, n: nat)
    requires n < |ids| && pid in m.units && Valid(m', d) && Kept(m, m', d, pid, ids, n)
    requires !Allocatable(m', d, pid, ids[n])
    ensures !Feasible(m, d, pid, ids)
  {
    if Feasible(m, d, pid, ids) {
      FeasibleGoesOn(m, m', d, pid, ids, n);
    }
  }

  lemma KeptAllIsFeasible(m: Maps, m': Maps, d: Device, pid: int, ids: seq<int>)
    requires pid in m.units && Kept(m, m', d, pid, ids, |ids|)
    ensures Feasible(m, d, pid, ids)
  {
    assert ids[..|ids|] == ids;
  }

  ghost predicate UsableBy(m: Maps, d: Device, pid: int, virt: int) {
    (PhysIdFor(m, pid, virt).Some? && PhysIdFor(m, pid, virt).value.Some?) || Allocatable(m, d, pid, virt)
  }

  /** A routine can use an id exactly if it exists, and is mapped already or can be. */
  lemma UsableIff(m: Maps, d: Device, pid: int, virt: int)
    requires Valid(m, d)
    ensures UsableBy(m, d, pid, virt) <==>
              && pid in m.units && virt in m.units[pid]
              && (|| m.virtual[pid][virt].Some?
                  || exists p :: p in m.physical && m.physical[p].None? && p in if m.units[pid][virt] then d.comm else d.mem)
  {
    AllocatableIff(m, d, pid, virt);
    assert pid in m.units ==> m.virtual[pid].Keys == m.units[pid].Keys;
  }

  /** The handler gets to pair `i` and cannot allocate its qubit. */
  ghost predicate FailsAt(m: Maps, d: Device, pid: int, ids: seq<int>, delivered: seq<bool>, i: int)
    requires |ids| == |delivered|
  {
    0 <= i < |ids| && (forall j :: 0 <= j < i ==> delivered[j]) && !Allocatable(m, d, pid, ids[i])
  }

  // ----- what a positive probe is worth -----

  /** After a positive probe, create-keep requests only need distinct ids and enough free
      qubits of each kind in addition. */
  lemma FeasibleIffProbed(m: Maps, d: Device, pid: int, ids: seq<int>)
    requires pid in m.units
    ensures Feasible(m, d, pid, ids) <==>
              && (forall i :: 0 <= i < |ids| ==> Allocatable(m, d, pid, ids[i])) && NoDup(ids)
              && forall isComm :: Count(ids, m.units[pid], isComm) <= |FreeOf(m, d, isComm)|
  {
    if Feasible(m, d, pid, ids) {
      forall i | 0 <= i < |ids| ensures Allocatable(m, d, pid, ids[i]) {
        var isComm := m.units[pid][ids[i]];
        CountNext(ids, i, m.units[pid], isComm);
        assert ids[..|ids|] == ids;
        CountGrows(ids, i + 1, |ids|, m.units[pid], isComm);
        NonEmptyHas(FreeOf(m, d, isComm));
      }
    }
  }

  /** The probe alone is not enough: it tries the ids one at a time. */
  lemma ProbeDoesNotReserve() returns (m: Maps, d: Device, ids: seq<int>)
    ensures Valid(m, d) && (forall i :: 0 <= i < |ids| ==> Allocatable(m, d, 0, ids[i])) && !Feasible(m, d, 0, ids)
  {
    d := Device({7}, {});
    m := Maps(map[0 := map[0 := true, 1 := true]], map[0 := map[0 := None, 1 := None]], map[7 := None]);
    ids := [0, 1];
    assert 7 in d.Of(true) && IsFree(m, 7);
    assert FreeOf(m, d, true) == {7};
    assert Count(ids[..1], m.units[0], true) == 1 by { assert ids[..1][..0] == []; }
    assert Count(ids, m.units[0], true) == 2;
  }
}
