/** The memory that the host shares with the other processors (qoala/runtime/sharedmem.py). */
module SharedMemories {
  import opened Tasks

  datatype Region = RrIn | RrOut | CrIn | LrIn | LrOut

  datatype Error = NotAllocated | IllegalRegion | OutOfBounds | Unwritten

  datatype Result<+T> = Ok(value: T) | Err(error: Error)

  /** Every address has its array of cells and belongs to one region. */
  datatype Memory = Memory(arrays: map<int, seq<Option<int>>>, region: map<int, Region>, counter: nat)

  ghost predicate Valid(m: Memory) {
    m.arrays.Keys == m.region.Keys && forall a :: a in m.arrays <==> 0 <= a < m.counter
  }

  /** `[None] * size`: a negative size gives no cells. */
  function Blank(size: int): (r: seq<Option<int>>)
    ensures |r| == if size > 0 then size else 0
    ensures forall i :: 0 <= i < |r| ==> r[i].None?
  {
    if size <= 0 then [] else [None] + Blank(size - 1)
  }

  function Written(data: seq<int>): (r: seq<Option<int>>)
    ensures |r| == |data| && forall i :: 0 <= i < |data| ==> r[i] == Some(data[i])
  {
    if data == [] then [] else [Some(data[0])] + Written(data[1..])
  }

  function Allocated(m: Memory, region: Region, size: int): Memory {
    Memory(m.arrays[m.counter := Blank(size)], m.region[m.counter := region], m.counter + 1)
  }

  /** The checks that every access makes, in order. */
  function Check(m: Memory, region: Region, addr: int, end: int): Option<Error> {
    if addr >= m.counter then Some(NotAllocated)
    else if addr !in m.region || m.region[addr] != region then Some(IllegalRegion)
    else if addr !in m.arrays || |m.arrays[addr]| < end then Some(OutOfBounds)
    else None
  }

  function Patched(cells: seq<Option<int>>, data: seq<int>, offset: nat): (r: seq<Option<int>>)
    requires offset + |data| <= |cells|
    ensures |r| == |cells|
    ensures forall i :: 0 <= i < |cells| ==>
              r[i] == if offset <= i < offset + |data| then Some(data[i - offset]) else cells[i]
  {
    cells[..offset] + Written(data) + cells[offset + |data|..]
  }

  function AfterWrite(m: Memory, region: Region, addr: int, data: seq<int>, offset: nat): Memory {
    if Check(m, region, addr, offset + |data|).Some? then m
    else m.(arrays := m.arrays[addr := Patched(m.arrays[addr], data, offset)])
  }

  /** Python's slice `cells[offset : offset + size]` of an array that is long enough; with a
      negative end it stops that many cells before the end of the array. */
  function Slice(cells: seq<Option<int>>, offset: nat, size: int): seq<Option<int>> {
    var end := if offset + size < 0 then |cells| + offset + size else offset + size;
    if offset <= end <= |cells| then cells[offset..end] else []
  }

  predicate AllWritten(cells: seq<Option<int>>) {
    forall i :: 0 <= i < |cells| ==> cells[i].Some?
  }

  function Values(cells: seq<Option<int>>): (r: seq<int>)
    requires AllWritten(cells)
    ensures |r| == |cells| && forall i :: 0 <= i < |cells| ==> r[i] == cells[i].value
  {
    if cells == [] then [] else [cells[0].value] + Values(cells[1..])
  }

  function ReadResult(m: Memory, region: Region, addr: int, size: int, offset: nat): Result<seq<int>> {
    var error := Check(m, region, addr, offset + size);
    if error.Some? then Err(error.value)
    else
      var cells := Slice(m.arrays[addr], offset, size);
      if AllWritten(cells) then Ok(Values(cells)) else Err(Unwritten)
  }

  class SharedMemory {
    var arrays: map<int, seq<Option<int>>>
    var addrs: map<Region, seq<int>>
    var counter: nat
    ghost var region: map<int, Region>

    ghost function Value(): Memory
      reads this
    {
      Memory(arrays, region, counter)
    }

    /** The address lists of the regions say which region an address belongs to. */
    ghost predicate IsValid()
      reads this
    {
      && Valid(Value())
      && (forall r: Region :: r in addrs)
      && (forall r, a :: r in addrs ==> (a in addrs[r] <==> a in region && region[a] == r))
    }

    constructor ()
      ensures IsValid() && Value() == Memory(map[], map[], 0)
    {
      arrays, counter, region := map[], 0, map[];
      addrs := map[RrIn := [], RrOut := [], CrIn := [], LrIn := [], LrOut := []];
      new;
      forall r: Region ensures r in addrs && addrs[r] == [] {
        assert r.RrIn? || r.RrOut? || r.CrIn? || r.LrIn? || r.LrOut?;
      }
    }

    method Allocate(r: Region, size: int) returns (addr: int)
      requires IsValid()
      modifies this
      ensures IsValid() && addr == old(counter) && Value() == Allocated(old(Value()), r, size)
    {
      addr := counter;
      counter := counter + 1;
      arrays := arrays[addr := Blank(size)];
      addrs := addrs[r := addrs[r] + [addr]];
      region := region[addr := r];
      forall q: Region, a ensures q in addrs && (a in addrs[q] <==> a in region && region[a] == q) {
        assert q in old(addrs) && (a in old(addrs)[q] <==> a in old(region) && old(region)[a] == q);
      }
    }

    method Write(r: Region, addr: int, data: seq<int>, offset: nat) returns (error: Option<Error>)
      requires IsValid()
      modifies this
      ensures IsValid() && error == Check(old(Value()), r, addr, offset + |data|)
      ensures Value() == AfterWrite(old(Value()), r, addr, data, offset)
    {
      if addr >= counter {
        return Some(NotAllocated);
      }
      if addr !in addrs[r] {
        return Some(IllegalRegion);
      }
      if |arrays[addr]| < offset + |data| {
        return Some(OutOfBounds);
      }
      ghost var cells := arrays[addr];
      assert data[..0] == [] && Patched(cells, [], offset) == cells && arrays == arrays[addr := cells];
      for i := 0 to |data|
        invariant counter == old(counter) && addrs == old(addrs) && region == old(region)
        invariant addr in arrays && arrays == old(arrays)[addr := Patched(cells, data[..i], offset)]
      {
        PatchNext(cells, data, offset, i);
        arrays := arrays[addr := arrays[addr][i + offset := Some(data[i])]];
      }
      assert data[..|data|] == data;
      error := None;
    }

    method Read(r: Region, addr: int, size: int, offset: nat) returns (result: Result<seq<int>>)
      requires IsValid()
      ensures result == ReadResult(Value(), r, addr, size, offset)
    {
      if addr >= counter {
        return Err(NotAllocated);
      }
      if addr !in addrs[r] {
        return Err(IllegalRegion);
      }
      if |arrays[addr]| < offset + size {
        return Err(OutOfBounds);
      }
      var cells := Slice(arrays[addr], offset, size);
      if !AllWritten(cells) {
        return Err(Unwritten);
      }
      result := Ok(Values(cells));
    }
  }

  lemma PatchNext(cells: seq<Option<int>>, data: seq<int>, offset: nat, i: nat)
    requires offset + |data| <= |cells| && i < |data|
    ensures Patched(cells, data[..i], offset)[i + offset := Some(data[i])] == Patched(cells, data[..i + 1], offset)
  {
  }

  // ----- what an access reports -----

  /** The cells `from..to` of an address, if it belongs to the region and has so many. */
  ghost predicate Accessible(m: Memory, region: Region, addr: int, to: int) {
    addr in m.arrays && addr in m.region && m.region[addr] == region && to <= |m.arrays[addr]|
  }

  /** An access goes through exactly if the cells are there; otherwise it reports an address
      that has not been allocated yet, then a wrong region, then too few cells. */
  lemma AccessReports(m: Memory, region: Region, addr: int, end: int)
    requires Valid(m)
    ensures Check(m, region, addr, end).None? <==> Accessible(m, region, addr, end)
    ensures Check(m, region, addr, end) == Some(NotAllocated) <==> addr >= m.counter
    ensures Check(m, region, addr, end) == Some(IllegalRegion) <==>
              addr < m.counter && (addr < 0 || m.region[addr] != region)
    ensures Check(m, region, addr, end) == Some(OutOfBounds) <==>
              0 <= addr < m.counter && m.region[addr] == region && |m.arrays[addr]| < end
    ensures Check(m, region, addr, end) != Some(Unwritten)
  {
  }

  /** Reading gives the values of the cells from the offset on, and fails only if one of
      them is not written. */
  lemma ReadGives(m: Memory, region: Region, addr: int, size: nat, offset: nat)
    requires Valid(m) && Accessible(m, region, addr, offset + size)
    ensures var cells, result := m.arrays[addr], ReadResult(m, region, addr, size, offset);
            if forall i :: offset <= i < offset + size ==> cells[i].Some? then
              && result.Ok? && |result.value| == size
              && forall i :: 0 <= i < size ==> Some(result.value[i]) == cells[offset + i]
            else result == Err(Unwritten)
  {
    var cells := m.arrays[addr];
    var slice := Slice(cells, offset, size);
    assert slice == cells[offset..offset + size];
    forall i | 0 <= i < size ensures slice[i] == cells[offset + i] {
    }
    if i :| offset <= i < offset + size && cells[i].None? {
      assert slice[i - offset].None?;
    }
  }

  /** Where Python's slice ends: a negative end counts from the end of the array. */
  ghost function SliceEnd(length: nat, end: int): int {
    if end >= 0 then end else length + end
  }

  /** A slice has the cells from the offset up to its end, if there are any. */
  lemma SliceIs(cells: seq<Option<int>>, offset: nat, size: int)
    requires offset + size <= |cells|
    ensures var slice, end := Slice(cells, offset, size), SliceEnd(|cells|, offset + size);
            && |slice| == (if end > offset then end - offset else 0)
            && forall i :: 0 <= i < |slice| ==> slice[i] == cells[offset + i]
  {
  }

  // ----- runs -----

  datatype Access = Alloc(region: Region, size: int) | Store(region: Region, addr: int, data: seq<int>, offset: nat)

  function After(m: Memory, e: Access): Memory {
    match e
    case Alloc(r, size) => Allocated(m, r, size)
    case Store(r, addr, data, offset) => AfterWrite(m, r, addr, data, offset)
  }

  function Run(m: Memory, es: seq<Access>): Memory {
    if es == [] then m else After(Run(m, es[..|es| - 1]), es[|es| - 1])
  }

  lemma AfterKeeps(m: Memory, e: Access, a: int)
    requires Valid(m)
    ensures Valid(After(m, e)) && After(m, e).counter >= m.counter
    ensures a in m.arrays ==> a in After(m, e).arrays && |After(m, e).arrays[a]| == |m.arrays[a]| && After(m, e).region[a] == m.region[a]
    ensures a in m.arrays && !(e.Store? && e.addr == a && e.region == m.region[a]) ==> After(m, e).arrays[a] == m.arrays[a]
  {
  }

  /** An address keeps its region and its number of cells for ever. */
  lemma {:induction false} RunKeepsShape(m: Memory, es: seq<Access>, a: int)
    requires Valid(m)
    ensures Valid(Run(m, es)) && Run(m, es).counter >= m.counter
    ensures a in m.arrays ==> a in Run(m, es).arrays && |Run(m, es).arrays[a]| == |m.arrays[a]| && Run(m, es).region[a] == m.region[a]
  {
    if es == [] {
    } else {
      RunKeepsShape(m, es[..|es| - 1], a);
      AfterKeeps(Run(m, es[..|es| - 1]), es[|es| - 1], a);
    }
  }

  /** Allocations, and writes to other addresses or through another region, do not disturb
      the cells of an address. */
  lemma {:induction false} OthersDoNotDisturb(m: Memory, es: seq<Access>, a: int)
    requires Valid(m) && a in m.arrays
    requires forall i :: 0 <= i < |es| ==> !(es[i].Store? && es[i].addr == a && es[i].region == m.region[a])
    ensures a in Run(m, es).arrays && Run(m, es).arrays[a] == m.arrays[a]
  {
    if es == [] {
    } else {
      var front := es[..|es| - 1];
      OthersDoNotDisturb(m, front, a);
      RunKeepsShape(m, front, a);
      AfterKeeps(Run(m, front), es[|es| - 1], a);
    }
  }

  /** What was written is what is read back. */
  lemma ReadsBackWhatWasWritten(m: Memory, r: Region, addr: int, data: seq<int>, offset: nat)
    requires Check(m, r, addr, offset + |data|).None?
    ensures ReadResult(AfterWrite(m, r, addr, data, offset), r, addr, |data|, offset) == Ok(data)
  {
    var cells := AfterWrite(m, r, addr, data, offset).arrays[addr];
    var slice := Slice(cells, offset, |data|);
    forall i | 0 <= i < |slice| ensures slice[i] == Some(data[i]) {
      assert slice[i] == cells[offset + i];
    }
    assert Values(slice) == data;
  }

  /** The last write to an address, of as many cells as it has. */
  ghost predicate IsLastStore(es: seq<Access>, i: nat, region: Region, addr: int, data: seq<int>) {
    && i < |es| && es[i] == Store(region, addr, data, 0)
    && forall j :: i < j < |es| ==> !(es[j].Store? && es[j].addr == addr && es[j].region == region)
  }

  lemma StoreFills(m: Memory, region: Region, addr: int, data: seq<int>)
    requires Valid(m) && addr in m.arrays && m.region[addr] == region && |m.arrays[addr]| == |data|
    ensures var m' := After(m, Store(region, addr, data, 0)); addr in m'.arrays && m'.arrays[addr] == Written(data)
  {
    var cells := m.arrays[addr];
    assert Patched(cells, data, 0) == Written(data);
  }

  /** What was written last is there in the end. */
  lemma {:induction false} LastStoreStays(m: Memory, es: seq<Access>, i: nat, region: Region, addr: int, data: seq<int>)
    requires Valid(m) && addr in m.arrays && m.region[addr] == region && |m.arrays[addr]| == |data|
    requires IsLastStore(es, i, region, addr, data)
    ensures addr in Run(m, es).arrays && Run(m, es).arrays[addr] == Written(data)
    decreases |es|
  {
    var front := es[..|es| - 1];
    RunKeepsShape(m, front, addr);
    if i == |front| {
      StoreFills(Run(m, front), region, addr, data);
    } else {
      assert front[i] == es[i];
      LastStoreStays(m, front, i, region, addr, data);
      AfterKeeps(Run(m, front), es[|es| - 1], addr);
    }
  }
}
