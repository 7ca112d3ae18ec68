/** The map between virtual and physical qubits (qoala/sim/memmgr.py). */
module QubitMemory {
  import opened Tasks

  /** The qubits of a unit module, and which of them are communication qubits. */
  type UnitModule = map<int, bool>

  datatype Location = Location(pid: int, virt: int)

  /** Both directions of the map: per process from virtual to physical ids, and back. */
  datatype Maps = Maps(units: map<int, UnitModule>, virtual: map<int, map<int, Option<int>>>,
                       physical: map<int, Option<Location>>)

  datatype Device = Device(comm: set<int>, mem: set<int>) {
    ghost predicate IsDevice() {
      comm !! mem
    }

    function Of(isComm: bool): set<int> {
      if isComm then comm else mem
    }
  }

  // ----- lookups -----

  /** None models the exception for an unknown id. */
  function PhysIdFor(m: Maps, pid: int, virt: int): Option<Option<int>> {
    if pid in m.virtual && virt in m.virtual[pid] then Some(m.virtual[pid][virt]) else None
  }

  function VirtIdFor(m: Maps, pid: int, phys: int): Option<Option<int>> {
    if phys !in m.physical then None
    else if m.physical[phys].Some? && m.physical[phys].value.pid == pid then Some(Some(m.physical[phys].value.virt))
    else Some(None)
  }

  // ----- the invariant -----

  /** The two directions are inverse to each other. */
  ghost predicate Inverse(m: Maps) {
    forall pid, v, p :: PhysIdFor(m, pid, v) == Some(Some(p)) <==> VirtIdFor(m, pid, p) == Some(Some(v))
  }

  ghost predicate KindsMatch(m: Maps, d: Device) {
    forall pid, v :: PhysIdFor(m, pid, v).Some? && PhysIdFor(m, pid, v).value.Some? ==>
      pid in m.units && v in m.units[pid] && PhysIdFor(m, pid, v).value.value in d.Of(m.units[pid][v])
  }

  ghost predicate Shaped(m: Maps, d: Device) {
    && d.IsDevice() && m.physical.Keys == d.comm + d.mem && m.units.Keys == m.virtual.Keys
    && forall pid :: pid in m.units ==> m.virtual[pid].Keys == m.units[pid].Keys
  }

  ghost predicate Valid(m: Maps, d: Device) {
    Shaped(m, d) && Inverse(m) && KindsMatch(m, d)
  }

  // ----- operations -----

  function AddProcess(m: Maps, pid: int, unit: UnitModule): Maps {
    m.(units := m.units[pid := unit], virtual := m.virtual[pid := map v | v in unit :: None])
  }

  predicate IsFree(m: Maps, p: int) {
    p in m.physical && m.physical[p].None?
  }

  predicate Unmapped(m: Maps, pid: int, virt: int) {
    PhysIdFor(m, pid, virt) == Some(None)
  }

  /** When `allocate` succeeds. */
  ghost predicate Allocatable(m: Maps, d: Device, pid: int, virt: int) {
    && pid in m.units && virt in m.units[pid] && Unmapped(m, pid, virt)
    && exists p :: p in d.Of(m.units[pid][virt]) && IsFree(m, p)
  }

  function Mapped(m: Maps, pid: int, virt: int, phys: int): Maps
    requires pid in m.virtual
  {
    m.(physical := m.physical[phys := Some(Location(pid, virt))],
       virtual := m.virtual[pid := m.virtual[pid][virt := Some(phys)]])
  }

  function Freed(m: Maps, pid: int, virt: int): Maps
    requires pid in m.virtual && virt in m.virtual[pid] && m.virtual[pid][virt].Some?
  {
    m.(physical := m.physical[m.virtual[pid][virt].value := None],
       virtual := m.virtual[pid := m.virtual[pid][virt := None]])
  }

  /** The outcomes of `allocate`: any free qubit of the right kind, or an AllocError that
      changes nothing. */
  ghost predicate Allocates(m: Maps, d: Device, pid: int, virt: int, phys: Option<int>, m': Maps) {
    if phys.None? then !Allocatable(m, d, pid, virt) && m' == m
    else
      && Allocatable(m, d, pid, virt) && phys.value in d.Of(m.units[pid][virt]) && IsFree(m, phys.value)
      && pid in m.virtual && m' == Mapped(m, pid, virt, phys.value)
  }

  ghost predicate Frees(m: Maps, pid: int, virt: int, ok: bool, m': Maps) {
    && ok == (PhysIdFor(m, pid, virt).Some? && PhysIdFor(m, pid, virt).value.Some?)
    && m' == if ok then Freed(m, pid, virt) else m
  }

  /** An id can be allocated exactly if it exists, is mapped to no qubit, and some qubit of
      its kind, communication or memory, is held by nobody. */
  lemma AllocatableIff(m: Maps, d: Device, pid: int, virt: int)
    requires Valid(m, d)
    ensures Allocatable(m, d, pid, virt) <==>
              && pid in m.units && virt in m.units[pid] && m.virtual[pid][virt].None?
              && exists p :: p in m.physical && m.physical[p].None? && p in if m.units[pid][virt] then d.comm else d.mem
  {
    if pid in m.units && virt in m.units[pid] {
      assert Unmapped(m, pid, virt) <==> m.virtual[pid][virt].None?;
      var kind := d.Of(m.units[pid][virt]);
      if p :| p in kind && IsFree(m, p) {
        assert p in m.physical && m.physical[p].None?;
      }
      if p :| p in m.physical && m.physical[p].None? && p in kind {
        assert IsFree(m, p);
      }
    }
  }

  // ----- every operation keeps the invariant -----

  lemma PhysIdAfterMapping(m: Maps, d: Device, pid: int, virt: int, phys: int, pid': int, v: int)
    requires Valid(m, d) && Unmapped(m, pid, virt) && IsFree(m, phys)
    ensures PhysIdFor(Mapped(m, pid, virt, phys), pid', v) ==
            if pid' == pid && v == virt then Some(Some(phys)) else PhysIdFor(m, pid', v)
  {
  }

  lemma VirtIdAfterMapping(m: Maps, d: Device, pid: int, virt: int, phys: int, pid': int, p: int)
    requires Valid(m, d) && Unmapped(m, pid, virt) && IsFree(m, phys)
    ensures VirtIdFor(Mapped(m, pid, virt, phys), pid', p) ==
            if p == phys then Some(if pid' == pid then Some(virt) else None) else VirtIdFor(m, pid', p)
  {
  }

  lemma MappingKeeps(m: Maps, d: Device, pid: int, virt: int, phys: int)
    requires Valid(m, d) && pid in m.units && virt in m.units[pid] && Unmapped(m, pid, virt)
    requires phys in d.Of(m.units[pid][virt]) && IsFree(m, phys)
    ensures Valid(Mapped(m, pid, virt, phys), d)
  {
    var m' := Mapped(m, pid, virt, phys);
    forall pid', v, p ensures PhysIdFor(m', pid', v) == Some(Some(p)) <==> VirtIdFor(m', pid', p) == Some(Some(v)) {
      PhysIdAfterMapping(m, d, pid, virt, phys, pid', v);
      VirtIdAfterMapping(m, d, pid, virt, phys, pid', p);
    }
    forall pid', v | PhysIdFor(m', pid', v).Some? && PhysIdFor(m', pid', v).value.Some?
      ensures pid' in m'.units && v in m'.units[pid'] && PhysIdFor(m', pid', v).value.value in d.Of(m'.units[pid'][v])
    {
      PhysIdAfterMapping(m, d, pid, virt, phys, pid', v);
    }
    assert m'.physical.Keys == m.physical.Keys;
  }

  lemma PhysIdAfterFreeing(m: Maps, d: Device, pid: int, virt: int, phys: int, pid': int, v: int)
    requires Valid(m, d) && PhysIdFor(m, pid, virt) == Some(Some(phys))
    ensures PhysIdFor(Freed(m, pid, virt), pid', v) ==
            if pid' == pid && v == virt then Some(None) else PhysIdFor(m, pid', v)
  {
  }

  lemma VirtIdAfterFreeing(m: Maps, d: Device, pid: int, virt: int, phys: int, pid': int, p: int)
    requires Valid(m, d) && PhysIdFor(m, pid, virt) == Some(Some(phys))
    ensures VirtIdFor(Freed(m, pid, virt), pid', p) == if p == phys then Some(None) else VirtIdFor(m, pid', p)
  {
  }

  lemma FreeingKeeps(m: Maps, d: Device, pid: int, virt: int)
    requires Valid(m, d) && PhysIdFor(m, pid, virt).Some? && PhysIdFor(m, pid, virt).value.Some?
    ensures Valid(Freed(m, pid, virt), d)
  {
    var m' := Freed(m, pid, virt);
    var phys := PhysIdFor(m, pid, virt).value.value;
    assert VirtIdFor(m, pid, phys) == Some(Some(virt));
    forall pid', v, p ensures PhysIdFor(m', pid', v) == Some(Some(p)) <==> VirtIdFor(m', pid', p) == Some(Some(v)) {
      PhysIdAfterFreeing(m, d, pid, virt, phys, pid', v);
      VirtIdAfterFreeing(m, d, pid, virt, phys, pid', p);
      assert PhysIdFor(m, pid', v) == Some(Some(p)) <==> VirtIdFor(m, pid', p) == Some(Some(v));
    }
    forall pid', v | PhysIdFor(m', pid', v).Some? && PhysIdFor(m', pid', v).value.Some?
      ensures pid' in m'.units && v in m'.units[pid'] && PhysIdFor(m', pid', v).value.value in d.Of(m'.units[pid'][v])
    {
      PhysIdAfterFreeing(m, d, pid, virt, phys, pid', v);
    }
    assert m'.physical.Keys == m.physical.Keys;
  }

  lemma LookupsAfterAdding(m: Maps, pid: int, unit: UnitModule, pid': int, v: int, p: int)
    ensures PhysIdFor(AddProcess(m, pid, unit), pid', v) ==
            if pid' == pid then (if v in unit then Some(None) else None) else PhysIdFor(m, pid', v)
    ensures VirtIdFor(AddProcess(m, pid, unit), pid', p) == VirtIdFor(m, pid', p)
  {
  }

  ghost predicate HoldsNothing(m: Maps, pid: int) {
    forall p :: p in m.physical && m.physical[p].Some? ==> m.physical[p].value.pid != pid
  }

  lemma AddingKeeps(m: Maps, d: Device, pid: int, unit: UnitModule)
    requires Valid(m, d) && HoldsNothing(m, pid)
    ensures Valid(AddProcess(m, pid, unit), d)
  {
    var m' := AddProcess(m, pid, unit);
    forall pid', v, p ensures PhysIdFor(m', pid', v) == Some(Some(p)) <==> VirtIdFor(m', pid', p) == Some(Some(v)) {
      LookupsAfterAdding(m, pid, unit, pid', v, p);
      assert PhysIdFor(m, pid', v) == Some(Some(p)) <==> VirtIdFor(m, pid', p) == Some(Some(v));
    }
    forall pid', v | PhysIdFor(m', pid', v).Some? && PhysIdFor(m', pid', v).value.Some?
      ensures pid' in m'.units && v in m'.units[pid'] && PhysIdFor(m', pid', v).value.value in d.Of(m'.units[pid'][v])
    {
      LookupsAfterAdding(m, pid, unit, pid', v, 0);
      assert pid' != pid;
    }
  }

  lemma AddingBreaks(m: Maps, d: Device, pid: int, unit: UnitModule, p: int)
    requires p in m.physical && m.physical[p].Some? && m.physical[p].value.pid == pid
    ensures !Valid(AddProcess(m, pid, unit), d)
  {
    var v := m.physical[p].value.virt;
    LookupsAfterAdding(m, pid, unit, pid, v, p);
    assert VirtIdFor(AddProcess(m, pid, unit), pid, p) == Some(Some(v));
    assert PhysIdFor(AddProcess(m, pid, unit), pid, v) != Some(Some(p));
  }

  /** Adding a process under a pid keeps the maps inverse exactly if no physical qubit is
      held under that pid; in particular for a new pid. */
  lemma AddingKeepsIffNothingHeld(m: Maps, d: Device, pid: int, unit: UnitModule)
    requires Valid(m, d)
    ensures Valid(AddProcess(m, pid, unit), d) <==> HoldsNothing(m, pid)
    ensures pid !in m.units ==> HoldsNothing(m, pid)
  {
    if HoldsNothing(m, pid) {
      AddingKeeps(m, d, pid, unit);
    } else {
      var p :| p in m.physical && m.physical[p].Some? && m.physical[p].value.pid == pid;
      AddingBreaks(m, d, pid, unit, p);
      assert VirtIdFor(m, pid, p) == Some(Some(m.physical[p].value.virt));
      assert PhysIdFor(m, pid, m.physical[p].value.virt) == Some(Some(p));
    }
  }

  // ----- runs -----

  /** The events of a run, with the outcome of each call. */
  datatype Event =
    | Add(pid: int, unit: UnitModule)
    | Allocate(pid: int, virt: int, phys: Option<int>)
    | Free(pid: int, virt: int, ok: bool)

  ghost predicate Step(d: Device, m: Maps, e: Event, m': Maps) {
    match e
    case Add(pid, unit) => pid !in m.units && m' == AddProcess(m, pid, unit)
    case Allocate(pid, virt, phys) => pid in m.units && Allocates(m, d, pid, virt, phys, m')
    case Free(pid, virt, ok) => pid in m.units && Frees(m, pid, virt, ok, m')
  }

  ghost predicate IsRun(d: Device, ms: seq<Maps>, es: seq<Event>) {
    && d.IsDevice() && |ms| == |es| + 1
    && ms[0] == Maps(map[], map[], map p | p in d.comm + d.mem :: None)
    && forall i :: 0 <= i < |es| ==> Step(d, ms[i], es[i], ms[i + 1])
  }

  lemma StepKeeps(d: Device, m: Maps, e: Event, m': Maps)
    requires Valid(m, d) && Step(d, m, e, m')
    ensures Valid(m', d)
  {
    match e
    case Add(pid, unit) => AddingKeepsIffNothingHeld(m, d, pid, unit);
    case Allocate(pid, virt, phys) =>
      if phys.Some? {
        MappingKeeps(m, d, pid, virt, phys.value);
      }
    case Free(pid, virt, ok) =>
      if ok {
        FreeingKeeps(m, d, pid, virt);
      }
  }

  lemma {:induction false} RunKeeps(d: Device, ms: seq<Maps>, es: seq<Event>, i: nat)
    requires IsRun(d, ms, es) && i < |ms|
    ensures Valid(ms[i], d)
    decreases i
  {
    if i > 0 {
      RunKeeps(d, ms, es, i - 1);
      StepKeeps(d, ms[i - 1], es[i - 1], ms[i]);
    }
  }

  /** After any sequence of calls, including failed ones, the two lookups are inverse to each
      other, and a communication id is never on another kind of qubit. */
  lemma LookupsStayInverse(d: Device, ms: seq<Maps>, es: seq<Event>, i: nat, pid: int, virt: int, phys: int)
    requires IsRun(d, ms, es) && i < |ms|
    ensures PhysIdFor(ms[i], pid, virt) == Some(Some(phys)) <==> VirtIdFor(ms[i], pid, phys) == Some(Some(virt))
    ensures PhysIdFor(ms[i], pid, virt) == Some(Some(phys)) ==>
              pid in ms[i].units && virt in ms[i].units[pid] && (phys in d.comm <==> ms[i].units[pid][virt])
  {
    RunKeeps(d, ms, es, i);
    assert PhysIdFor(ms[i], pid, virt) == Some(Some(phys)) <==> VirtIdFor(ms[i], pid, phys) == Some(Some(virt));
  }

  /** No physical qubit has two owners, within or across processes. */
  lemma OwnersAreUnique(d: Device, ms: seq<Maps>, es: seq<Event>, i: nat, pid: int, v: int, pid': int, w: int,
                        phys: int)
    requires IsRun(d, ms, es) && i < |ms|
    requires PhysIdFor(ms[i], pid, v) == Some(Some(phys)) == PhysIdFor(ms[i], pid', w)
    ensures pid == pid' && v == w
  {
    LookupsStayInverse(d, ms, es, i, pid, v, phys);
    LookupsStayInverse(d, ms, es, i, pid', w, phys);
  }

  /** What allocate and free undo: the maps are as before. */
  lemma FreeUndoesAllocate(m: Maps, pid: int, virt: int, phys: int)
    requires Unmapped(m, pid, virt) && IsFree(m, phys)
    ensures PhysIdFor(Mapped(m, pid, virt, phys), pid, virt) == Some(Some(phys))
    ensures Freed(Mapped(m, pid, virt, phys), pid, virt) == m
  {
    var m' := Freed(Mapped(m, pid, virt, phys), pid, virt);
    assert m'.virtual[pid] == m.virtual[pid];
    assert m'.virtual == m.virtual;
    assert m'.physical == m.physical;
  }
}
