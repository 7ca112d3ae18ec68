/** Calls from the host through shared memory (qoala/sim/host/hostprocessor.py:269-494,
    qoala/lang/request.py:254-272). */
module HostCalls {
  import opened Tasks
  import opened SharedMemories

  type Inputs = map<string, int>

  /** A size is a number, a template, or a plain name. */
  datatype Size = Fixed(size: int) | Templated(name: string) | Text(name: string)

  /** The number of pairs is a number or a template. */
  type PairCount = s: Size | !s.Text? witness Fixed(0)

  /** A local routine knows no inputs; a request routine knows those of the program. */
  datatype Scope = Local | Program(inputs: Inputs)

  datatype ReturnVar = Plain | Vector(size: Size)

  datatype ResultVar = NoResult | Single(name: string) | Tuple(names: seq<string>) | VectorVar(name: string, size: Size)

  datatype Callback = Callback(args: nat, outputs: seq<ReturnVar>)

  datatype Routine = Routine(numPairs: PairCount, outputs: seq<ReturnVar>, callback: Option<Callback>, sequential: bool)

  datatype RrCall = RrCall(input: int, result: int, cbInputs: seq<int>, cbOutputs: seq<int>)

  /** None models a KeyError for an input that is not there. */
  function Lookup(name: string, inputs: Inputs): Option<int> {
    if name in inputs then Some(inputs[name]) else None
  }

  function PairsOf(s: PairCount, inputs: Inputs): Option<int> {
    if s.Fixed? then Some(s.size) else Lookup(s.name, inputs)
  }

  /** A local routine has vectors of a fixed size only; None models the failed assertion. A
      request routine passes over a vector whose size is a plain name. */
  function VarSize(v: ReturnVar, scope: Scope): Option<int> {
    if v.Plain? then Some(1)
    else if v.size.Fixed? then Some(v.size.size)
    else if scope.Local? then None
    else if v.size.Templated? then Lookup(v.size.name, scope.inputs)
    else Some(0)
  }

  function ReturnSize(vars: seq<ReturnVar>, scope: Scope): Option<int> {
    if vars == [] then Some(0)
    else
      var before := ReturnSize(vars[..|vars| - 1], scope);
      var last := VarSize(vars[|vars| - 1], scope);
      if before.None? || last.None? then None else Some(before.value + last.value)
  }

  /** In the code of the host a size that is not a number is the name of an input. */
  function ResultSize(results: ResultVar, inputs: Inputs): Option<int> {
    match results
    case NoResult => Some(0)
    case Single(_) => Some(1)
    case Tuple(names) => Some(|names|)
    case VectorVar(_, Fixed(n)) => Some(n)
    case VectorVar(_, Text(name)) => Lookup(name, inputs)
    case VectorVar(_, Templated(_)) => None
  }

  lemma {:induction false} UnknownSizeStays(vars: seq<ReturnVar>, scope: Scope, n: nat)
    requires n <= |vars| && ReturnSize(vars[..n], scope).None?
    ensures ReturnSize(vars, scope).None?
    decreases |vars| - n
  {
    if n == |vars| {
      assert vars[..n] == vars;
    } else {
      assert vars[..n + 1][..n] == vars[..n];
      UnknownSizeStays(vars, scope, n + 1);
    }
  }

  method GetReturnSize(vars: seq<ReturnVar>, scope: Scope) returns (size: Option<int>)
    ensures size == ReturnSize(vars, scope)
  {
    var total := 0;
    for i := 0 to |vars|
      invariant ReturnSize(vars[..i], scope) == Some(total)
    {
      assert vars[..i + 1][..i] == vars[..i];
      var one := VarSize(vars[i], scope);
      if one.None? {
        UnknownSizeStays(vars, scope, i + 1);
        return None;
      }
      total := total + one.value;
    }
    assert vars[..|vars|] == vars;
    size := Some(total);
  }

  /** How often the callback runs. */
  function Rounds(r: Routine, pairs: int): nat {
    if r.callback.None? then 0
    else if !r.sequential then 1
    else if pairs > 0 then pairs
    else 0
  }

  function Total(n: nat, size: int): int {
    if n == 0 then 0 else Total(n - 1, size) + size
  }

  /** The sizes that both halves of a call work out for themselves. */
  datatype Sizes = Sizes(rounds: nat, result: int, callback: int, vars: int)

  function SizesOf(r: Routine, results: ResultVar, inputs: Inputs): Option<Sizes> {
    var pairs := PairsOf(r.numPairs, inputs);
    if pairs.None? then None
    else
      var rounds := Rounds(r, pairs.value);
      var result := ReturnSize(r.outputs, Program(inputs));
      var callback := CallbackSize(r, pairs.value);
      var vars := ResultSize(results, inputs);
      if result.None? || callback.None? || vars.None? then None
      else Some(Sizes(rounds, result.value, callback.value, vars.value))
  }

  // ----- preparing -----

  function CallbacksAllocated(m: Memory, args: nat, size: int, n: nat): Memory {
    if n == 0 then m else Allocated(Allocated(CallbacksAllocated(m, args, size, n - 1), CrIn, args), LrOut, size)
  }

  function InputWritten(m: Memory, args: seq<int>): Memory {
    AfterWrite(Allocated(m, RrIn, |args|), RrIn, m.counter, args, 0)
  }

  /** Addresses `first`, `first + 2`, and so on. */
  function EveryOther(first: int, n: nat): (r: seq<int>)
    ensures |r| == n && forall i :: 0 <= i < n ==> r[i] == first + 2 * i
  {
    if n == 0 then [] else EveryOther(first, n - 1) + [first + 2 * (n - 1)]
  }

  function CbArgs(r: Routine): nat {
    if r.callback.Some? then r.callback.value.args else 0
  }

  function Prepared(m: Memory, args: seq<int>, r: Routine, s: Sizes): Memory {
    Allocated(CallbacksAllocated(InputWritten(m, args), CbArgs(r), s.callback, s.rounds), RrOut, s.result)
  }

  function Addresses(m: Memory, s: Sizes): RrCall {
    RrCall(m.counter, m.counter + 1 + 2 * s.rounds, EveryOther(m.counter + 1, s.rounds), EveryOther(m.counter + 2, s.rounds))
  }

  predicate SizesAgree(s: Sizes) {
    s.vars == s.result + Total(s.rounds, s.callback)
  }

  lemma {:induction false} CallbackCounter(m: Memory, args: nat, size: int, n: nat)
    ensures CallbacksAllocated(m, args, size, n).counter == m.counter + 2 * n
  {
    if n > 0 {
      CallbackCounter(m, args, size, n - 1);
    }
  }

  // ----- the regions of a call -----

  ghost predicate HasRegion(m: Memory, addr: int, region: Region, size: int) {
    && addr in m.arrays && addr in m.region && addr < m.counter
    && m.region[addr] == region && |m.arrays[addr]| == if size > 0 then size else 0
  }

  lemma AllocationMakes(m: Memory, region: Region, size: int)
    requires Valid(m)
    ensures Valid(Allocated(m, region, size)) && HasRegion(Allocated(m, region, size), m.counter, region, size)
  {
  }

  lemma AllocationKeeps(m: Memory, region: Region, size: int, addr: int, other: Region, n: int)
    requires Valid(m) && HasRegion(m, addr, other, n)
    ensures HasRegion(Allocated(m, region, size), addr, other, n)
  {
  }

  /** The regions of round `i`. */
  ghost predicate HasRound(m: Memory, first: int, args: nat, size: int, i: nat) {
    HasRegion(m, first + 2 * i, CrIn, args) && HasRegion(m, first + 2 * i + 1, LrOut, size)
  }

  lemma RoundIsMade(m: Memory, first: int, args: nat, size: int, n: nat)
    requires Valid(m) && m.counter == first + 2 * n
    ensures var m' := Allocated(Allocated(m, CrIn, args), LrOut, size);
            Valid(m') && m'.counter == first + 2 * (n + 1) && HasRound(m', first, args, size, n)
  {
    AllocationMakes(m, CrIn, args);
    AllocationMakes(Allocated(m, CrIn, args), LrOut, size);
    AllocationKeeps(Allocated(m, CrIn, args), LrOut, size, m.counter, CrIn, args);
  }

  lemma RoundStays(m: Memory, region: Region, more: int, first: int, args: nat, size: int, i: nat)
    requires Valid(m) && HasRound(m, first, args, size, i)
    ensures HasRound(Allocated(m, region, more), first, args, size, i)
  {
    AllocationKeeps(m, region, more, first + 2 * i, CrIn, args);
    AllocationKeeps(m, region, more, first + 2 * i + 1, LrOut, size);
  }

  lemma {:induction false} CallbackRegions(m: Memory, args: nat, size: int, n: nat, i: nat)
    requires Valid(m)
    ensures var m' := CallbacksAllocated(m, args, size, n);
            Valid(m') && m'.counter == m.counter + 2 * n && (i < n ==> HasRound(m', m.counter, args, size, i))
  {
    if n > 0 {
      CallbackRegions(m, args, size, n - 1, i);
      var before := CallbacksAllocated(m, args, size, n - 1);
      RoundIsMade(before, m.counter, args, size, n - 1);
      if i < n - 1 {
        AllocationMakes(before, CrIn, args);
        RoundStays(before, CrIn, args, m.counter, args, size, i);
        RoundStays(Allocated(before, CrIn, args), LrOut, size, m.counter, args, size, i);
      }
    }
  }

  lemma InputIsWritten(m: Memory, args: seq<int>)
    requires Valid(m)
    ensures Valid(InputWritten(m, args)) && InputWritten(m, args).counter == m.counter + 1
    ensures ReadResult(InputWritten(m, args), RrIn, m.counter, |args|, 0) == Ok(args)
  {
    AllocationMakes(m, RrIn, |args|);
    ReadsBackWhatWasWritten(Allocated(m, RrIn, |args|), RrIn, m.counter, args, 0);
  }

  lemma RegionsBehind(m: Memory, first: int, args: nat, s: Sizes, i: nat)
    requires Valid(m) && m.counter == first + 2 * s.rounds && (i < s.rounds ==> HasRound(m, first, args, s.callback, i))
    ensures var m' := Allocated(m, RrOut, s.result);
            && Valid(m') && HasRegion(m', first + 2 * s.rounds, RrOut, s.result)
            && (i < s.rounds ==> HasRound(m', first, args, s.callback, i))
  {
    AllocationMakes(m, RrOut, s.result);
    if i < s.rounds {
      RoundStays(m, RrOut, s.result, first, args, s.callback, i);
    }
  }

  lemma AddressesAre(m: Memory, s: Sizes, i: nat)
    ensures Addresses(m, s).result == m.counter + 1 + 2 * s.rounds
    ensures i < s.rounds ==> Addresses(m, s).cbInputs[i] == m.counter + 1 + 2 * i
    ensures i < s.rounds ==> Addresses(m, s).cbOutputs[i] == m.counter + 1 + 2 * i + 1
  {
  }

  lemma RoundAt(m: Memory, m': Memory, r: Routine, s: Sizes, i: nat)
    requires i < s.rounds && HasRound(m', m.counter + 1, CbArgs(r), s.callback, i)
    ensures HasRegion(m', Addresses(m, s).cbInputs[i], CrIn, CbArgs(r))
    ensures HasRegion(m', Addresses(m, s).cbOutputs[i], LrOut, s.callback)
  {
    AddressesAre(m, s, i);
  }

  /** Preparing a call gives it regions of the sizes that are read later, one per round. */
  lemma PreparedRegions(m: Memory, args: seq<int>, r: Routine, s: Sizes, i: nat)
    requires Valid(m)
    ensures var m' := Prepared(m, args, r, s);
            var call := Addresses(m, s);
            && Valid(m') && HasRegion(m', call.result, RrOut, s.result)
            && (i < s.rounds ==>
                  HasRegion(m', call.cbInputs[i], CrIn, CbArgs(r)) && HasRegion(m', call.cbOutputs[i], LrOut, s.callback))
  {
    InputIsWritten(m, args);
    var m1 := InputWritten(m, args);
    CallbackRegions(m1, CbArgs(r), s.callback, s.rounds, i);
    RegionsBehind(CallbacksAllocated(m1, CbArgs(r), s.callback, s.rounds), m1.counter, CbArgs(r), s, i);
    if i < s.rounds {
      RoundAt(m, Prepared(m, args, r, s), r, s, i);
    }
  }

  /** The cells of an address, and its region. */
  ghost predicate SameCells(m: Memory, m': Memory, a: int) {
    && a in m.arrays && a in m.region && a < m.counter <= m'.counter && a in m'.arrays && a in m'.region
    && m'.arrays[a] == m.arrays[a] && m'.region[a] == m.region[a]
  }

  lemma SameCellsSameRead(m: Memory, m': Memory, region: Region, a: int, size: int)
    requires SameCells(m, m', a)
    ensures ReadResult(m', region, a, size, 0) == ReadResult(m, region, a, size, 0)
  {
  }

  lemma {:induction false} CallbacksKeepCells(m: Memory, args: nat, size: int, n: nat, a: int)
    requires Valid(m) && 0 <= a < m.counter
    ensures SameCells(m, CallbacksAllocated(m, args, size, n), a)
  {
    if n > 0 {
      CallbacksKeepCells(m, args, size, n - 1, a);
      CallbackCounter(m, args, size, n - 1);
    }
  }

  lemma InputIsReadable(m: Memory, args: seq<int>, r: Routine, s: Sizes)
    requires Valid(m)
    ensures ReadResult(Prepared(m, args, r, s), RrIn, Addresses(m, s).input, |args|, 0) == Ok(args)
  {
    var m1 := InputWritten(m, args);
    InputIsWritten(m, args);
    CallbacksKeepCells(m1, CbArgs(r), s.callback, s.rounds, m.counter);
    CallbackCounter(m1, CbArgs(r), s.callback, s.rounds);
    SameCellsSameRead(m1, Prepared(m, args, r, s), RrIn, m.counter, |args|);
  }

  /** The number of pairs is a number, or the value of an input. */
  ghost predicate AsksFor(r: Routine, inputs: Inputs, pairs: int) {
    if r.numPairs.Fixed? then pairs == r.numPairs.size else r.numPairs.name in inputs && pairs == inputs[r.numPairs.name]
  }

  /** The callback runs once for all pairs, or once for each. */
  ghost predicate RunsCallback(r: Routine, pairs: int, times: nat) {
    if r.callback.None? then times == 0
    else if r.sequential then times == (if pairs < 0 then 0 else pairs)
    else times == 1
  }

  /** The arguments of the request can be read, each run of the callback has cells for its
      arguments and its results, and there are cells for the results of the request. */
  ghost predicate IsReady(m: Memory, call: RrCall, args: seq<int>, r: Routine, result: int, callback: int) {
    && ReadResult(m, RrIn, call.input, |args|, 0) == Ok(args)
    && |call.cbInputs| == |call.cbOutputs|
    && (forall i :: 0 <= i < |call.cbInputs| ==>
          r.callback.Some? && HasRegion(m, call.cbInputs[i], CrIn, r.callback.value.args))
    && (forall i :: 0 <= i < |call.cbOutputs| ==> HasRegion(m, call.cbOutputs[i], LrOut, callback))
    && HasRegion(m, call.result, RrOut, result)
  }

  lemma PreparedIsReady(m: Memory, args: seq<int>, r: Routine, s: Sizes, pairs: int)
    requires Valid(m) && s.rounds == Rounds(r, pairs)
    ensures IsReady(Prepared(m, args, r, s), Addresses(m, s), args, r, s.result, s.callback)
    ensures RunsCallback(r, pairs, |Addresses(m, s).cbInputs|)
  {
    var m', call := Prepared(m, args, r, s), Addresses(m, s);
    InputIsReadable(m, args, r, s);
    PreparedRegions(m, args, r, s, 0);
    forall i: nat | i < s.rounds
      ensures r.callback.Some? && HasRegion(m', call.cbInputs[i], CrIn, r.callback.value.args)
      ensures HasRegion(m', call.cbOutputs[i], LrOut, s.callback)
    {
      PreparedRegions(m, args, r, s, i);
    }
  }

  method AllocateCallbacks(mem: SharedMemory, args: nat, size: int, rounds: nat)
    returns (cbInputs: seq<int>, cbOutputs: seq<int>, total: int)
    requires mem.IsValid()
    modifies mem
    ensures mem.IsValid() && mem.Value() == CallbacksAllocated(old(mem.Value()), args, size, rounds)
    ensures cbInputs == EveryOther(old(mem.counter), rounds) && cbOutputs == EveryOther(old(mem.counter) + 1, rounds)
    ensures total == Total(rounds, size)
  {
    cbInputs, cbOutputs, total := [], [], 0;
    for i := 0 to rounds
      invariant mem.IsValid() && mem.Value() == CallbacksAllocated(old(mem.Value()), args, size, i)
      invariant mem.counter == old(mem.counter) + 2 * i && total == Total(i, size)
      invariant cbInputs == EveryOther(old(mem.counter), i) && cbOutputs == EveryOther(old(mem.counter) + 1, i)
    {
      var input := mem.Allocate(CrIn, args);
      cbInputs := cbInputs + [input];
      var output := mem.Allocate(LrOut, size);
      cbOutputs := cbOutputs + [output];
      total := total + size;
    }
  }

  method WriteInputs(mem: SharedMemory, args: seq<int>) returns (addr: int)
    requires mem.IsValid()
    modifies mem
    ensures mem.IsValid() && addr == old(mem.counter) && mem.Value() == InputWritten(old(mem.Value()), args)
    ensures mem.counter == addr + 1
  {
    addr := mem.Allocate(RrIn, |args|);
    var error := mem.Write(RrIn, addr, args, 0);
  }

  /** The callback part of `prepare_rr_call`. */
  method PrepareCallbacks(mem: SharedMemory, r: Routine, pairs: int)
    returns (size: Option<int>, cbInputs: seq<int>, cbOutputs: seq<int>, total: int)
    requires mem.IsValid()
    modifies mem
    ensures mem.IsValid()
    ensures size == CallbackSize(r, pairs)
    ensures size.Some? ==>
              && mem.Value() == CallbacksAllocated(old(mem.Value()), CbArgs(r), size.value, Rounds(r, pairs))
              && cbInputs == EveryOther(old(mem.counter), Rounds(r, pairs))
              && cbOutputs == EveryOther(old(mem.counter) + 1, Rounds(r, pairs))
              && total == Total(Rounds(r, pairs), size.value)
  {
    var rounds := Rounds(r, pairs);
    size, cbInputs, cbOutputs, total := Some(0), [], [], 0;
    if rounds > 0 {
      size := GetReturnSize(r.callback.value.outputs, Local);
      if size.Some? {
        cbInputs, cbOutputs, total := AllocateCallbacks(mem, r.callback.value.args, size.value, rounds);
      }
    }
  }

  function CallbackSize(r: Routine, pairs: int): Option<int> {
    if Rounds(r, pairs) > 0 then ReturnSize(r.callback.value.outputs, Local) else Some(0)
  }

  /** The sizes, with as many variables as there are cells. */
  function KnownSizes(r: Routine, pairs: int, inputs: Inputs): Option<Sizes> {
    var result := ReturnSize(r.outputs, Program(inputs));
    var callback := CallbackSize(r, pairs);
    if result.None? || callback.None? then None
    else
      var rounds := Rounds(r, pairs);
      Some(Sizes(rounds, result.value, callback.value, result.value + Total(rounds, callback.value)))
  }

  lemma SizesAgreeIff(r: Routine, results: ResultVar, inputs: Inputs, pairs: int)
    requires PairsOf(r.numPairs, inputs) == Some(pairs)
    ensures var s, known, vars := SizesOf(r, results, inputs), KnownSizes(r, pairs, inputs), ResultSize(results, inputs);
            && (s.Some? && SizesAgree(s.value) <==> known.Some? && vars == Some(known.value.vars))
            && (s.Some? && SizesAgree(s.value) ==> s == known)
  {
  }

  /** Writes the arguments and allocates all regions of a call. */
  method AllocateForCall(mem: SharedMemory, args: seq<int>, r: Routine, pairs: int, inputs: Inputs)
    returns (call: Option<RrCall>, total: int)
    requires mem.IsValid()
    modifies mem
    ensures mem.IsValid()
    ensures call.Some? <==> KnownSizes(r, pairs, inputs).Some?
    ensures call.Some? ==>
              var s := KnownSizes(r, pairs, inputs).value;
              && mem.Value() == Prepared(old(mem.Value()), args, r, s)
              && call.value == Addresses(old(mem.Value()), s) && total == s.vars
  {
    ghost var m := mem.Value();
    var input := WriteInputs(mem, args);
    var cbSize, cbInputs, cbOutputs, cbTotal := PrepareCallbacks(mem, r, pairs);
    var result := GetReturnSize(r.outputs, Program(inputs));
    if cbSize.None? || result.None? {
      return None, 0;
    }
    CallbackCounter(InputWritten(m, args), CbArgs(r), cbSize.value, Rounds(r, pairs));
    var addr := mem.Allocate(RrOut, result.value);
    ghost var s := KnownSizes(r, pairs, inputs).value;
    call, total := Some(RrCall(input, addr, cbInputs, cbOutputs)), cbTotal + result.value;
    assert call.value == Addresses(m, s);
  }

  /** None models a KeyError or the failed size assertion. */
  method PrepareRrCall(mem: SharedMemory, args: seq<int>, results: ResultVar, r: Routine, inputs: Inputs)
    returns (call: Option<RrCall>)
    requires mem.IsValid()
    modifies mem
    ensures mem.IsValid()
    ensures var s := SizesOf(r, results, inputs);
            && (call.Some? <==> s.Some? && SizesAgree(s.value))
            && (call.Some? ==>
                  && mem.Value() == Prepared(old(mem.Value()), args, r, s.value)
                  && call.value == Addresses(old(mem.Value()), s.value)
                  && IsReady(mem.Value(), call.value, args, r, s.value.result, s.value.callback))
    ensures call.Some? ==> exists pairs :: AsksFor(r, inputs, pairs) && RunsCallback(r, pairs, |call.value.cbInputs|)
  {
    ghost var m := mem.Value();
    var pairs := PairsOf(r.numPairs, inputs);
    if pairs.None? {
      return None;
    }
    SizesAgreeIff(r, results, inputs, pairs.value);
    var total;
    call, total := AllocateForCall(mem, args, r, pairs.value, inputs);
    var vars := ResultSize(results, inputs);
    if vars.None? || vars.value != total {
      call := None;
    } else if call.Some? {
      PreparedIsReady(m, args, r, SizesOf(r, results, inputs).value, pairs.value);
      assert AsksFor(r, inputs, pairs.value);
    }
  }

  // ----- collecting the results -----

  function ReadAll(m: Memory, addrs: seq<int>, size: int): Option<seq<int>> {
    if addrs == [] then Some([])
    else
      var before := ReadAll(m, addrs[..|addrs| - 1], size);
      var last := ReadResult(m, LrOut, addrs[|addrs| - 1], size, 0);
      if before.None? || last.Err? then None else Some(before.value + last.value)
  }

  /** What `post_rr_call` collects; None models an exception, of which the last is the
      failed assertion on the number of results. */
  function Collected(m: Memory, call: RrCall, s: Sizes): Option<seq<int>>
    requires s.rounds <= |call.cbOutputs|
  {
    var rr := ReadResult(m, RrOut, call.result, s.result, 0);
    var cb := ReadAll(m, call.cbOutputs[..s.rounds], s.callback);
    if rr.Err? || cb.None? || |rr.value + cb.value| != s.vars then None else Some(rr.value + cb.value)
  }

  lemma {:induction false} FailedReadStays(m: Memory, addrs: seq<int>, size: int, n: nat)
    requires n <= |addrs| && ReadAll(m, addrs[..n], size).None?
    ensures ReadAll(m, addrs, size).None?
    decreases |addrs| - n
  {
    if n == |addrs| {
      assert addrs[..n] == addrs;
    } else {
      assert addrs[..n + 1][..n] == addrs[..n];
      FailedReadStays(m, addrs, size, n + 1);
    }
  }

  method ReadCallbacks(mem: SharedMemory, addrs: seq<int>, size: int) returns (results: Option<seq<int>>)
    requires mem.IsValid()
    ensures results == ReadAll(mem.Value(), addrs, size)
  {
    var all := [];
    for i := 0 to |addrs|
      invariant ReadAll(mem.Value(), addrs[..i], size) == Some(all)
    {
      assert addrs[..i + 1][..i] == addrs[..i];
      var one := mem.Read(LrOut, addrs[i], size, 0);
      if one.Err? {
        FailedReadStays(mem.Value(), addrs, size, i + 1);
        return None;
      }
      all := all + one.value;
    }
    assert addrs[..|addrs|] == addrs;
    results := Some(all);
  }

  method CollectRrCall(mem: SharedMemory, call: RrCall, s: Sizes) returns (results: Option<seq<int>>)
    requires mem.IsValid() && s.rounds <= |call.cbOutputs|
    ensures results == Collected(mem.Value(), call, s)
  {
    var rr := mem.Read(RrOut, call.result, s.result, 0);
    var cb := ReadCallbacks(mem, call.cbOutputs[..s.rounds], s.callback);
    if rr.Err? || cb.None? {
      return None;
    }
    var all := rr.value + cb.value;
    if |all| != s.vars {
      return None;
    }
    results := Some(all);
  }
}
