/** What a caller gets back from a call. */
module HostCallTheorems {
  import opened Tasks
  import opened SharedMemories
  import opened HostCalls
  import HostLang

  /** The regions are new and pairwise different. */
  lemma PreparedAddressesDiffer(m: Memory, s: Sizes, i: nat, j: nat)
    requires i < s.rounds && j < s.rounds
    ensures var call := Addresses(m, s);
            && call.input >= m.counter && call.result > call.cbOutputs[i] > call.cbInputs[i] > call.input
            && call.cbOutputs[i] != call.cbInputs[j]
            && (i != j ==> call.cbOutputs[i] != call.cbOutputs[j] && call.cbInputs[i] != call.cbInputs[j])
  {
  }

  /** Until the request reads its arguments, they stay readable: only a write to their own
      address through the same region could change them. */
  lemma ArgumentsStayReadable(m: Memory, call: RrCall, args: seq<int>, es: seq<Access>)
    requires Valid(m) && ReadResult(m, RrIn, call.input, |args|, 0) == Ok(args)
    requires forall i :: 0 <= i < |es| ==> !(es[i].Store? && es[i].addr == call.input && es[i].region == RrIn)
    ensures ReadResult(Run(m, es), RrIn, call.input, |args|, 0) == Ok(args)
  {
    assert call.input in m.region && m.region[call.input] == RrIn;
    OthersDoNotDisturb(m, es, call.input);
    RunKeepsShape(m, es, call.input);
    SameCellsSameRead(m, Run(m, es), RrIn, call.input, |args|);
  }

  // ----- when a call can be prepared -----

  /** The number of cells of a returned variable: one, or the length of a vector, which only a
      request may take from the inputs of the program, and which counts as nothing there if
      it is neither a number nor a template. */
  ghost predicate HasSize(v: ReturnVar, scope: Scope, n: int) {
    match v
    case Plain => n == 1
    case Vector(Fixed(size)) => n == size
    case Vector(Templated(name)) => scope.Program? && name in scope.inputs && n == scope.inputs[name]
    case Vector(Text(_)) => scope.Program? && n == 0
  }

  ghost function Sum(sizes: seq<int>): int {
    if sizes == [] then 0 else Sum(sizes[..|sizes| - 1]) + sizes[|sizes| - 1]
  }

  ghost predicate AreSizes(vars: seq<ReturnVar>, scope: Scope, sizes: seq<int>) {
    |sizes| == |vars| && forall i :: 0 <= i < |vars| ==> HasSize(vars[i], scope, sizes[i])
  }

  /** All variables have a size, and `n` is the sum. */
  ghost predicate Returns(vars: seq<ReturnVar>, scope: Scope, n: int) {
    exists sizes :: AreSizes(vars, scope, sizes) && Sum(sizes) == n
  }

  lemma VarSizeIs(v: ReturnVar, scope: Scope, n: int)
    ensures VarSize(v, scope) == Some(n) <==> HasSize(v, scope, n)
  {
  }

  lemma SizesAppend(vars: seq<ReturnVar>, scope: Scope, sizes: seq<int>, n: int)
    requires vars != [] && AreSizes(vars[..|vars| - 1], scope, sizes) && HasSize(vars[|vars| - 1], scope, n)
    ensures AreSizes(vars, scope, sizes + [n]) && Sum(sizes + [n]) == Sum(sizes) + n
  {
    assert (sizes + [n])[..|sizes|] == sizes;
  }

  lemma {:induction false} ReturnSizeIsSum(vars: seq<ReturnVar>, scope: Scope, n: int)
    ensures ReturnSize(vars, scope) == Some(n) <==> Returns(vars, scope, n)
  {
    if vars == [] {
      assert AreSizes(vars, scope, []) && Sum([]) == 0;
    } else {
      var front, last := vars[..|vars| - 1], vars[|vars| - 1];
      if ReturnSize(vars, scope) == Some(n) {
        var size := VarSize(last, scope).value;
        ReturnSizeIsSum(front, scope, n - size);
        VarSizeIs(last, scope, size);
        var sizes :| AreSizes(front, scope, sizes) && Sum(sizes) == n - size;
        SizesAppend(vars, scope, sizes, size);
      }
      if sizes :| AreSizes(vars, scope, sizes) && Sum(sizes) == n {
        var size := sizes[|sizes| - 1];
        assert AreSizes(front, scope, sizes[..|sizes| - 1]);
        ReturnSizeIsSum(front, scope, n - size);
        VarSizeIs(last, scope, size);
      }
    }
  }

  /** The number of variables, or the length of the vector, that takes the results. */
  ghost predicate Takes(results: ResultVar, inputs: Inputs, n: int) {
    match results
    case NoResult => n == 0
    case Single(_) => n == 1
    case Tuple(names) => n == |names|
    case VectorVar(_, Fixed(size)) => n == size
    case VectorVar(_, Text(name)) => name in inputs && n == inputs[name]
    case VectorVar(_, Templated(_)) => false
  }

  lemma ResultSizeIs(results: ResultVar, inputs: Inputs, n: int)
    ensures ResultSize(results, inputs) == Some(n) <==> Takes(results, inputs, n)
  {
  }

  lemma {:induction false} TotalIsProduct(n: nat, size: int)
    ensures Total(n, size) == n * size
  {
    if n > 0 {
      TotalIsProduct(n - 1, size);
      assert n * size == (n - 1) * size + size;
    }
  }

  ghost predicate CallbackReturns(r: Routine, times: nat, callback: int) {
    if times == 0 then callback == 0
    else r.callback.Some? && ReturnSize(r.callback.value.outputs, Local) == Some(callback)
  }

  /** The request returns `result` values and each of the `times` runs of its callback
      `callback` values, and together they fill the variables. */
  ghost predicate Fits(r: Routine, results: ResultVar, inputs: Inputs, pairs: int, times: nat, result: int, callback: int) {
    && AsksFor(r, inputs, pairs) && RunsCallback(r, pairs, times)
    && ReturnSize(r.outputs, Program(inputs)) == Some(result) && CallbackReturns(r, times, callback)
    && Takes(results, inputs, result + Total(times, callback))
  }

  lemma PairsAre(r: Routine, inputs: Inputs, pairs: int)
    ensures PairsOf(r.numPairs, inputs) == Some(pairs) <==> AsksFor(r, inputs, pairs)
  {
  }

  lemma RoundsAre(r: Routine, pairs: int, times: nat)
    ensures Rounds(r, pairs) == times <==> RunsCallback(r, pairs, times)
  {
  }

  lemma CallbackSizeIs(r: Routine, pairs: int, times: nat, callback: int)
    requires Rounds(r, pairs) == times
    ensures CallbackSize(r, pairs) == Some(callback) <==> CallbackReturns(r, times, callback)
  {
  }

  /** Where the sizes come from. */
  ghost predicate AreSizesOf(r: Routine, results: ResultVar, inputs: Inputs, pairs: int, s: Sizes) {
    && PairsOf(r.numPairs, inputs) == Some(pairs) && Rounds(r, pairs) == s.rounds
    && ReturnSize(r.outputs, Program(inputs)) == Some(s.result) && CallbackSize(r, pairs) == Some(s.callback)
    && ResultSize(results, inputs) == Some(s.vars)
  }

  lemma SizesAre(r: Routine, results: ResultVar, inputs: Inputs, s: Sizes)
    ensures SizesOf(r, results, inputs) == Some(s) <==> exists pairs :: AreSizesOf(r, results, inputs, pairs, s)
  {
    if SizesOf(r, results, inputs) == Some(s) {
      assert AreSizesOf(r, results, inputs, PairsOf(r.numPairs, inputs).value, s);
    }
  }

  lemma FitsIff(r: Routine, results: ResultVar, inputs: Inputs, pairs: int, s: Sizes)
    ensures AreSizesOf(r, results, inputs, pairs, s) && SizesAgree(s) <==>
              Fits(r, results, inputs, pairs, s.rounds, s.result, s.callback) && SizesAgree(s)
  {
    PairsAre(r, inputs, pairs);
    RoundsAre(r, pairs, s.rounds);
    if Rounds(r, pairs) == s.rounds {
      CallbackSizeIs(r, pairs, s.rounds, s.callback);
    }
    ResultSizeIs(results, inputs, s.vars);
  }

  /** A call can be prepared exactly if the number of pairs is known, all returned values have
      sizes, and the variables of the caller have room for exactly so many results. */
  lemma CanPrepareIffFits(r: Routine, results: ResultVar, inputs: Inputs, s: Sizes)
    ensures SizesOf(r, results, inputs) == Some(s) && SizesAgree(s) <==>
              SizesAgree(s) && exists pairs :: Fits(r, results, inputs, pairs, s.rounds, s.result, s.callback)
  {
    SizesAre(r, results, inputs, s);
    if pairs :| AreSizesOf(r, results, inputs, pairs, s) && SizesAgree(s) {
      FitsIff(r, results, inputs, pairs, s);
    }
    if pairs :| Fits(r, results, inputs, pairs, s.rounds, s.result, s.callback) && SizesAgree(s) {
      FitsIff(r, results, inputs, pairs, s);
      assert AreSizesOf(r, results, inputs, pairs, s);
    }
  }

  // ----- reading the results -----

  ghost predicate Holds(m: Memory, addr: int, data: seq<int>) {
    addr in m.arrays && m.arrays[addr] == Written(data)
  }

  lemma ReadsWhatItHolds(m: Memory, addr: int, region: Region, size: int, data: seq<int>)
    requires HasRegion(m, addr, region, size) && Holds(m, addr, data)
    ensures ReadResult(m, region, addr, size, 0) == Ok(data)
    ensures |data| == if size > 0 then size else 0
  {
    var slice := Slice(m.arrays[addr], 0, size);
    assert slice == Written(data);
    assert AllWritten(slice);
    assert Values(slice) == data;
  }

  function Flatten(parts: seq<seq<int>>): seq<int> {
    if parts == [] then [] else Flatten(parts[..|parts| - 1]) + parts[|parts| - 1]
  }

  lemma {:induction false} ReadsAllCallbacks(m: Memory, addrs: seq<int>, size: int, parts: seq<seq<int>>)
    requires |addrs| == |parts|
    requires forall i :: 0 <= i < |addrs| ==> HasRegion(m, addrs[i], LrOut, size) && Holds(m, addrs[i], parts[i])
    ensures ReadAll(m, addrs, size) == Some(Flatten(parts))
    ensures |Flatten(parts)| == Total(|parts|, if size > 0 then size else 0)
  {
    if addrs != [] {
      var n := |addrs| - 1;
      ReadsAllCallbacks(m, addrs[..n], size, parts[..n]);
      ReadsWhatItHolds(m, addrs[n], LrOut, size, parts[n]);
    }
  }

  lemma {:induction false} TotalOfCells(n: nat, size: int)
    ensures Total(n, if size > 0 then size else 0) >= Total(n, size)
    ensures Total(n, if size > 0 then size else 0) == Total(n, size) <==> n == 0 || size >= 0
  {
    if n > 0 {
      TotalOfCells(n - 1, size);
    }
  }

  /** The results are in the memory: `rr` those of the request, `parts` those of the rounds. */
  ghost predicate Answered(m: Memory, call: RrCall, s: Sizes, rr: seq<int>, parts: seq<seq<int>>) {
    && |call.cbOutputs| == s.rounds == |parts| && Holds(m, call.result, rr)
    && forall i :: 0 <= i < s.rounds ==> Holds(m, call.cbOutputs[i], parts[i])
  }

  lemma RegionStays(m: Memory, es: seq<Access>, addr: int, region: Region, size: int)
    requires Valid(m) && HasRegion(m, addr, region, size)
    ensures HasRegion(Run(m, es), addr, region, size)
  {
    RunKeepsShape(m, es, addr);
  }

  lemma CallRegionsStay(m: Memory, args: seq<int>, r: Routine, s: Sizes, es: seq<Access>)
    requires Valid(m)
    ensures var m' := Run(Prepared(m, args, r, s), es);
            var call := Addresses(m, s);
            && HasRegion(m', call.result, RrOut, s.result)
            && forall i :: 0 <= i < s.rounds ==> HasRegion(m', call.cbOutputs[i], LrOut, s.callback)
  {
    var m' := Prepared(m, args, r, s);
    var call := Addresses(m, s);
    PreparedRegions(m, args, r, s, 0);
    RegionStays(m', es, call.result, RrOut, s.result);
    forall i | 0 <= i < s.rounds ensures HasRegion(Run(m', es), call.cbOutputs[i], LrOut, s.callback) {
      PreparedRegions(m, args, r, s, i);
      RegionStays(m', es, call.cbOutputs[i], LrOut, s.callback);
    }
  }

  lemma CollectsTheAnswer(m: Memory, call: RrCall, s: Sizes, rr: seq<int>, parts: seq<seq<int>>)
    requires Answered(m, call, s, rr, parts) && SizesAgree(s) && HasRegion(m, call.result, RrOut, s.result)
    requires forall i :: 0 <= i < s.rounds ==> HasRegion(m, call.cbOutputs[i], LrOut, s.callback)
    ensures Collected(m, call, s) ==
            if s.result >= 0 && (s.rounds == 0 || s.callback >= 0) then Some(rr + Flatten(parts)) else None
  {
    ReadsWhatItHolds(m, call.result, RrOut, s.result, rr);
    assert call.cbOutputs[..s.rounds] == call.cbOutputs;
    ReadsAllCallbacks(m, call.cbOutputs, s.callback, parts);
    TotalOfCells(s.rounds, s.callback);
  }

  /** If the sizes agree when a call is prepared, and all cells have been written by the time
      it is completed, whatever else happened to the memory, then the completion gets every
      result, the request's first and then the callbacks' in the order of the pairs. The
      check of their number fails exactly if a size that counts is negative. */
  lemma CallReturnsEveryResult(m: Memory, args: seq<int>, r: Routine, s: Sizes, es: seq<Access>,
                               rr: seq<int>, parts: seq<seq<int>>)
    requires Valid(m) && SizesAgree(s) && Answered(Run(Prepared(m, args, r, s), es), Addresses(m, s), s, rr, parts)
    ensures Collected(Run(Prepared(m, args, r, s), es), Addresses(m, s), s) ==
            if s.result >= 0 && (s.rounds == 0 || s.callback >= 0) then Some(rr + Flatten(parts)) else None
  {
    CallRegionsStay(m, args, r, s, es);
    CollectsTheAnswer(Run(Prepared(m, args, r, s), es), Addresses(m, s), s, rr, parts);
  }

  // ----- handing the results to the program -----

  datatype HostValue = Int(value: int) | Vec(values: seq<int>)

  type HostMemory = map<string, HostValue>

  /** `zip` stops at the shorter of the two. */
  function Zipped(host: HostMemory, names: seq<string>, values: seq<int>): HostMemory
    decreases |names|
  {
    if names == [] || values == [] then host
    else Zipped(host[names[0] := Int(values[0])], names[1..], values[1..])
  }

  /** `post_rr_call`. */
  function AssignRr(host: HostMemory, results: ResultVar, values: seq<int>): HostMemory
    requires results.Single? ==> |values| >= 1
  {
    match results
    case NoResult => host
    case Single(name) => host[name := Int(values[0])]
    case Tuple(names) => Zipped(host, names, values)
    case VectorVar(name, _) => host[name := Vec(values)]
  }

  function Characters(s: string): (r: seq<string>)
    ensures |r| == |s| && forall i :: 0 <= i < |s| ==> r[i] == [s[i]]
  {
    if s == [] then [] else [[s[0]]] + Characters(s[1..])
  }

  /** `post_lr_call` pairs the results of a single variable with the characters of its name. */
  function AssignLr(host: HostMemory, results: ResultVar, values: seq<int>): HostMemory {
    match results
    case NoResult => host
    case Single(name) => Zipped(host, Characters(name), values)
    case Tuple(names) => Zipped(host, names, values)
    case VectorVar(name, _) => host[name := Vec(values)]
  }

  method ZipResults(host: HostMemory, names: seq<string>, values: seq<int>) returns (host': HostMemory)
    ensures host' == Zipped(host, names, values)
  {
    host' := host;
    var n := if |names| < |values| then |names| else |values|;
    assert names[0..] == names && values[0..] == values;
    for i := 0 to n
      invariant Zipped(host', names[i..], values[i..]) == Zipped(host, names, values)
    {
      assert names[i..][1..] == names[i + 1..] && values[i..][1..] == values[i + 1..];
      host' := host'[names[i] := Int(values[i])];
    }
  }

  lemma {:induction false} ZippedKeeps(host: HostMemory, names: seq<string>, values: seq<int>, name: string)
    requires name !in names
    ensures (name in Zipped(host, names, values) <==> name in host)
    ensures name in host ==> Zipped(host, names, values)[name] == host[name]
    decreases |names|
  {
    if names != [] && values != [] {
      ZippedKeeps(host[names[0] := Int(values[0])], names[1..], values[1..], name);
    }
  }

  /** The variables of a tuple get the results in order. */
  lemma {:induction false} TupleGetsResultsInOrder(host: HostMemory, names: seq<string>, values: seq<int>, i: nat)
    requires i < |names| == |values| && forall j, k :: 0 <= j < k < |names| ==> names[j] != names[k]
    ensures names[i] in Zipped(host, names, values) && Zipped(host, names, values)[names[i]] == Int(values[i])
    decreases |names|
  {
    var host' := host[names[0] := Int(values[0])];
    if i == 0 {
      assert names[0] !in names[1..];
      ZippedKeeps(host', names[1..], values[1..], names[0]);
    } else {
      TupleGetsResultsInOrder(host', names[1..], values[1..], i - 1);
    }
  }

  lemma LrSingle(host: HostMemory, name: string, value: int)
    ensures AssignLr(host, Single(name), [value]) == if name == [] then host else host[[name[0]] := Int(value)]
  {
    if name != [] {
      var characters := Characters(name);
      assert characters[0] == [name[0]];
      assert [value][1..] == [];
      assert Zipped(host[[name[0]] := Int(value)], characters[1..], []) == host[[name[0]] := Int(value)];
    }
  }

  /** A single result of a local routine would reach its variable only if the name of the
      variable had one character; that of a request would always do. */
  lemma SingleResultArrivesIffOneCharacter(name: string, value: int)
    ensures (forall host: HostMemory :: AssignLr(host, Single(name), [value]) == AssignRr(host, Single(name), [value])) <==>
            |name| == 1
  {
    if |name| == 1 {
      forall host: HostMemory ensures AssignLr(host, Single(name), [value]) == AssignRr(host, Single(name), [value]) {
        LrSingle(host, name, value);
        assert [name[0]] == name;
      }
    } else {
      var empty: HostMemory := map[];
      LrSingle(empty, name, value);
      assert name in AssignRr(empty, Single(name), [value]);
      assert name !in AssignLr(empty, Single(name), [value]);
    }
  }

  /** But no program has such a call: the result of an operation that is a call is a
      collection. So for every call that a program can make, the results of a local
      routine are handed over as those of a request are. */
  lemma CallsHaveNoSingleResult(kind: HostLang.OpKind, result: Option<HostLang.Var>, args: seq<HostLang.Var>,
                                attr: Option<HostLang.Value>)
    requires kind.RunSubroutine? || kind.RunRequest?
    requires HostLang.FromGenericArgs(kind, result, args, attr).Some?
    ensures result.Some? ==> result.value.TupleVar? || result.value.VectorVar?
    ensures forall host: HostMemory, values: seq<int> ::
              AssignLr(host, ResultOf(result), values) == AssignRr(host, ResultOf(result), values)
  {
  }

  /** The result variables of a parsed operation. */
  function ResultOf(result: Option<HostLang.Var>): ResultVar
    requires result.Some? ==> !result.value.Element? && !result.value.Singleton?
  {
    if result.None? then NoResult
    else match result.value
      case TupleVar(names) => Tuple(names)
      case VectorVar(name, VInt(n)) => VectorVar(name, Fixed(n))
      case VectorVar(name, VStr(input)) => VectorVar(name, Text(input))
  }

  // ----- from the request to the program -----

  lemma {:induction false} FlattenAt(parts: seq<seq<int>>, size: nat, i: nat, j: nat)
    requires i < |parts| && j < size && forall k :: 0 <= k < |parts| ==> |parts[k]| == size
    ensures |Flatten(parts)| == Total(|parts|, size)
    ensures 0 <= Total(i, size) + j < |Flatten(parts)| && Flatten(parts)[Total(i, size) + j] == parts[i][j]
  {
    var front := parts[..|parts| - 1];
    FlattenLength(front, size);
    FlattenLength(parts, size);
    TotalGrows(i, size);
    if i < |front| {
      FlattenAt(front, size, i, j);
    }
  }

  lemma {:induction false} TotalGrows(n: nat, size: nat)
    ensures Total(n, size) >= 0
  {
    if n > 0 {
      TotalGrows(n - 1, size);
    }
  }

  lemma {:induction false} FlattenLength(parts: seq<seq<int>>, size: nat)
    requires forall k :: 0 <= k < |parts| ==> |parts[k]| == size
    ensures |Flatten(parts)| == Total(|parts|, size)
  {
    if parts != [] {
      FlattenLength(parts[..|parts| - 1], size);
    }
  }

  /** While the call runs, the request and each callback write their results, last `rr` and
      `parts`; anything else may happen to other addresses. */
  ghost predicate ResultsAreStored(es: seq<Access>, call: RrCall, rounds: nat, rr: seq<int>, parts: seq<seq<int>>) {
    && |call.cbOutputs| == rounds == |parts|
    && (exists i: nat :: IsLastStore(es, i, RrOut, call.result, rr))
    && forall k :: 0 <= k < rounds ==> exists i: nat :: IsLastStore(es, i, LrOut, call.cbOutputs[k], parts[k])
  }

  ghost predicate SizesFit(s: Sizes, rr: seq<int>, parts: seq<seq<int>>) {
    |rr| == s.result && |parts| == s.rounds && forall k :: 0 <= k < |parts| ==> |parts[k]| == s.callback
  }

  lemma StoredIsHeld(m: Memory, es: seq<Access>, region: Region, addr: int, data: seq<int>)
    requires Valid(m) && HasRegion(m, addr, region, |data|) && exists i: nat :: IsLastStore(es, i, region, addr, data)
    ensures Holds(Run(m, es), addr, data)
  {
    var i: nat :| IsLastStore(es, i, region, addr, data);
    LastStoreStays(m, es, i, region, addr, data);
  }

  lemma StoredIsAnswered(m: Memory, args: seq<int>, r: Routine, s: Sizes, es: seq<Access>, rr: seq<int>,
                         parts: seq<seq<int>>)
    requires Valid(m) && SizesFit(s, rr, parts) && ResultsAreStored(es, Addresses(m, s), s.rounds, rr, parts)
    ensures Answered(Run(Prepared(m, args, r, s), es), Addresses(m, s), s, rr, parts)
  {
    var m', call := Prepared(m, args, r, s), Addresses(m, s);
    PreparedRegions(m, args, r, s, 0);
    StoredIsHeld(m', es, RrOut, call.result, rr);
    forall k | 0 <= k < s.rounds ensures Holds(Run(m', es), call.cbOutputs[k], parts[k]) {
      PreparedRegions(m, args, r, s, k);
      StoredIsHeld(m', es, LrOut, call.cbOutputs[k], parts[k]);
    }
  }

  /** From the preparation of a request to the variables of the program: whatever the
      request and its callbacks write, and whatever else happens to the memory meanwhile,
      the completion collects exactly these results, as many as there are variables. */
  lemma CallCollectsWhatWasStored(m: Memory, args: seq<int>, r: Routine, results: ResultVar, inputs: Inputs, s: Sizes,
                                  es: seq<Access>, rr: seq<int>, parts: seq<seq<int>>)
    requires Valid(m) && SizesOf(r, results, inputs) == Some(s) && SizesAgree(s)
    requires SizesFit(s, rr, parts) && ResultsAreStored(es, Addresses(m, s), s.rounds, rr, parts)
    ensures Collected(Run(Prepared(m, args, r, s), es), Addresses(m, s), s) == Some(rr + Flatten(parts))
    ensures ResultSize(results, inputs) == Some(|rr + Flatten(parts)|)
  {
    StoredIsAnswered(m, args, r, s, es, rr, parts);
    CallReturnsEveryResult(m, args, r, s, es, rr, parts);
    if s.rounds > 0 {
      assert |parts[0]| == s.callback;
      FlattenLength(parts, s.callback);
    }
  }

  /** So the first variables of a tuple get the results of the request, and the others, in
      the order of the pairs, those of the callbacks. */
  lemma TupleGetsWhatWasStored(m: Memory, args: seq<int>, r: Routine, names: seq<string>, inputs: Inputs, s: Sizes,
                               es: seq<Access>, rr: seq<int>, parts: seq<seq<int>>, host: HostMemory, i: nat)
    requires Valid(m) && SizesOf(r, Tuple(names), inputs) == Some(s) && SizesAgree(s)
    requires SizesFit(s, rr, parts) && ResultsAreStored(es, Addresses(m, s), s.rounds, rr, parts)
    requires forall j, k :: 0 <= j < k < |names| ==> names[j] != names[k]
    requires i < |names|
    ensures var collected := Collected(Run(Prepared(m, args, r, s), es), Addresses(m, s), s);
            && collected == Some(rr + Flatten(parts)) && |names| == |rr| + |Flatten(parts)|
            && var host' := AssignRr(host, Tuple(names), collected.value);
               names[i] in host' && host'[names[i]] == Int(if i < |rr| then rr[i] else Flatten(parts)[i - |rr|])
  {
    CallCollectsWhatWasStored(m, args, r, Tuple(names), inputs, s, es, rr, parts);
    TupleGetsResultsInOrder(host, names, rr + Flatten(parts), i);
  }

  lemma ElementOfTuple(host: HostMemory, names: seq<string>, rr: seq<int>, parts: seq<seq<int>>, size: nat, k: nat,
                       j: nat)
    requires k < |parts| && j < size && forall n :: 0 <= n < |parts| ==> |parts[n]| == size
    requires |names| == |rr| + |Flatten(parts)| && forall a, b :: 0 <= a < b < |names| ==> names[a] != names[b]
    ensures var i := |rr| + Total(k, size) + j;
            && 0 <= i < |names| && names[i] in Zipped(host, names, rr + Flatten(parts))
            && Zipped(host, names, rr + Flatten(parts))[names[i]] == Int(parts[k][j])
  {
    FlattenAt(parts, size, k, j);
    TotalGrows(k, size);
    TupleGetsResultsInOrder(host, names, rr + Flatten(parts), |rr| + Total(k, size) + j);
  }

  /** The `j`-th result of the callback for pair `k` gets to the variable at its place. */
  lemma CallbackReachesItsVariable(m: Memory, args: seq<int>, r: Routine, names: seq<string>, inputs: Inputs, s: Sizes,
                                   es: seq<Access>, rr: seq<int>, parts: seq<seq<int>>, host: HostMemory, k: nat, j: nat)
    requires Valid(m) && SizesOf(r, Tuple(names), inputs) == Some(s) && SizesAgree(s)
    requires SizesFit(s, rr, parts) && ResultsAreStored(es, Addresses(m, s), s.rounds, rr, parts)
    requires forall j, k :: 0 <= j < k < |names| ==> names[j] != names[k]
    requires k < s.rounds && j < s.callback
    ensures var collected := Collected(Run(Prepared(m, args, r, s), es), Addresses(m, s), s);
            var i := s.result + Total(k, s.callback) + j;
            && collected.Some? && 0 <= i < |names|
            && var host' := AssignRr(host, Tuple(names), collected.value);
               names[i] in host' && host'[names[i]] == Int(parts[k][j])
  {
    CallCollectsWhatWasStored(m, args, r, Tuple(names), inputs, s, es, rr, parts);
    ElementOfTuple(host, names, rr, parts, s.callback, k, j);
  }

  /** And a vector gets all of them. */
  lemma VectorGetsWhatWasStored(m: Memory, args: seq<int>, r: Routine, name: string, size: Size, inputs: Inputs,
                                s: Sizes,
                                es: seq<Access>, rr: seq<int>, parts: seq<seq<int>>, host: HostMemory)
    requires Valid(m) && SizesOf(r, VectorVar(name, size), inputs) == Some(s) && SizesAgree(s)
    requires SizesFit(s, rr, parts) && ResultsAreStored(es, Addresses(m, s), s.rounds, rr, parts)
    ensures var collected := Collected(Run(Prepared(m, args, r, s), es), Addresses(m, s), s);
            && collected == Some(rr + Flatten(parts))
            && AssignRr(host, VectorVar(name, size), collected.value) == host[name := Vec(rr + Flatten(parts))]
  {
    CallCollectsWhatWasStored(m, args, r, VectorVar(name, size), inputs, s, es, rr, parts);
  }
}
