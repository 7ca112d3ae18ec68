/** The host language: variables, operations and blocks, and how they are printed
    (qoala/lang/hostlang.py, qoala/lang/program.py:166-170). */
module HostLang {
  import opened Tasks
  import opened Strings

  datatype Value = VInt(n: int) | VStr(s: string)

  datatype Var =
    | Singleton(name: string)
    | TupleVar(names: seq<string>)
    | VectorVar(name: string, size: Value)
    | Element(name: string, index: int)

  datatype OpKind =
    | SendCMsg | ReceiveCMsg | AddCValue | MultConst | BcondMultConst | AssignCValue | RunSubroutine | RunRequest
    | ReturnResult | Busy | Jump | Beq | Bne | Blt | Bgt

  datatype Op = Op(kind: OpKind, result: Option<Var>, args: seq<Var>, attr: Option<Value>)

  datatype BlockType = CL | CC | QL | QC

  /** The deadlines of a block relative to other blocks, in the order of the dictionary. */
  type BlockDeadlines = Option<seq<(string, int)>>

  datatype Block = Block(name: string, typ: BlockType, instructions: seq<Op>, deadlines: BlockDeadlines)

  const ALL_KINDS := [SendCMsg, ReceiveCMsg, AddCValue, MultConst, BcondMultConst, AssignCValue, RunSubroutine, RunRequest,
                      ReturnResult, Busy, Jump, Beq, Bne, Blt, Bgt]

  function OpName(kind: OpKind): string {
    match kind
    case SendCMsg => "send_cmsg"
    case ReceiveCMsg => "recv_cmsg"
    case AddCValue => "add_cval_c"
    case MultConst => "mult_const"
    case BcondMultConst => "bcond_mult_const"
    case AssignCValue => "assign_cval"
    case RunSubroutine => "run_subroutine"
    case RunRequest => "run_request"
    case ReturnResult => "return_result"
    case Busy => "busy"
    case Jump => "jump"
    case Beq => "beq"
    case Bne => "bne"
    case Blt => "blt"
    case Bgt => "bgt"
  }

  function TypeName(typ: BlockType): string {
    match typ
    case CL => "CL"
    case CC => "CC"
    case QL => "QL"
    case QC => "QC"
  }

  // ----- what can be constructed -----

  predicate IsScalar(v: Var) {
    v.Singleton? || v.Element?
  }

  predicate IsCollection(v: Var) {
    v.TupleVar? || v.VectorVar?
  }

  predicate TwoScalars(args: seq<Var>) {
    |args| == 2 && IsScalar(args[0]) && IsScalar(args[1])
  }

  predicate OneScalar(args: seq<Var>) {
    |args| == 1 && IsScalar(args[0])
  }

  predicate IsSingleton(result: Option<Var>) {
    result.Some? && result.value.Singleton?
  }

  predicate IsInt(attr: Option<Value>) {
    attr.Some? && attr.value.VInt?
  }

  predicate IsStr(attr: Option<Value>) {
    attr.Some? && attr.value.VStr?
  }

  /** The checks of `from_generic_args`. */
  predicate Accepts(kind: OpKind, result: Option<Var>, args: seq<Var>, attr: Option<Value>) {
    match kind
    case SendCMsg => result.None? && TwoScalars(args) && attr.None?
    case ReceiveCMsg => IsSingleton(result) && OneScalar(args) && attr.None?
    case AddCValue => IsSingleton(result) && TwoScalars(args) && attr.None?
    case MultConst => IsSingleton(result) && OneScalar(args) && attr.Some?
    case BcondMultConst => IsSingleton(result) && TwoScalars(args) && IsInt(attr)
    case AssignCValue => IsSingleton(result) && args == [] && IsInt(attr)
    case RunSubroutine => (result.Some? ==> IsCollection(result.value)) && |args| == 1 && args[0].TupleVar? && IsStr(attr)
    case RunRequest => (result.Some? ==> IsCollection(result.value)) && |args| == 1 && args[0].TupleVar? && IsStr(attr)
    case ReturnResult =>
      result.None? && |args| == 1 && (args[0].Singleton? || args[0].VectorVar?) && attr.None?
    case Busy => result.None? && args == [] && attr.Some?
    case Jump => result.None? && args == [] && IsStr(attr)
    case _ => result.None? && TwoScalars(args) && IsStr(attr)
  }

  /** None models the HostLanguageSyntaxError. Calls without arguments get an empty tuple. */
  function FromGenericArgs(kind: OpKind, result: Option<Var>, args: seq<Var>, attr: Option<Value>): Option<Op> {
    var given := if (kind.RunSubroutine? || kind.RunRequest?) && args == [] then [TupleVar([])] else args;
    if Accepts(kind, result, given, attr) then Some(Op(kind, result, given, attr)) else None
  }

  // ----- printing -----

  function PrintValue(v: Value): string {
    if v.VInt? then Decimal(v.n) else v.s
  }

  function PrintVar(v: Var): string {
    match v
    case Singleton(name) => name
    case TupleVar(names) => "tuple<" + Join(names, ",") + ">"
    case VectorVar(name, size) => name + "<" + PrintValue(size) + ">"
    case Element(name, index) => name + "[" + Decimal(index) + "]"
  }

  function PrintVars(vars: seq<Var>): (r: seq<string>)
    ensures |r| == |vars| && forall i :: 0 <= i < |vars| ==> r[i] == PrintVar(vars[i])
  {
    if vars == [] then [] else [PrintVar(vars[0])] + PrintVars(vars[1..])
  }

  function PrintArgs(args: seq<Var>): string {
    if args == [TupleVar([])] then "" else Join(PrintVars(args), ", ")
  }

  function PrintCall(op: Op): string {
    OpName(op.kind) + "(" + PrintArgs(op.args) + ")"
  }

  function PrintRight(op: Op): string {
    var attrs := if op.attr.Some? then PrintValue(op.attr.value) else "";
    PrintCall(op) + if attrs != [] then " : " + attrs else ""
  }

  function PrintOp(op: Op): string {
    var results := if op.result.Some? then PrintVar(op.result.value) else "";
    (if results != [] then results + " = " else "") + PrintRight(op)
  }

  /** The items of `str` of a dictionary, for names that need no escapes. */
  function PrintItems(items: seq<(string, int)>): (r: seq<string>)
    ensures |r| == |items| && forall i :: 0 <= i < |items| ==> r[i] == "'" + items[i].0 + "': " + Decimal(items[i].1)
  {
    if items == [] then [] else ["'" + items[0].0 + "': " + Decimal(items[0].1)] + PrintItems(items[1..])
  }

  function PrintAnnotations(b: Block): string {
    "type = " + TypeName(b.typ) +
    if b.deadlines.Some? then ", deadlines: {" + Join(PrintItems(b.deadlines.value), ", ") + "}" else ""
  }

  function PrintHeader(b: Block): string {
    "^" + b.name + " {" + PrintAnnotations(b) + "}:"
  }

  function Indented(ops: seq<Op>): (r: seq<string>)
    ensures |r| == |ops| && forall i :: 0 <= i < |ops| ==> r[i] == "    " + PrintOp(ops[i])
  {
    if ops == [] then [] else ["    " + PrintOp(ops[0])] + Indented(ops[1..])
  }

  function PrintBlock(b: Block): string {
    PrintHeader(b) + "\n" + Join(Indented(b.instructions), "\n")
  }

  function PrintBlocks(blocks: seq<Block>): (r: seq<string>)
    ensures |r| == |blocks| && forall i :: 0 <= i < |blocks| ==> r[i] == PrintBlock(blocks[i])
  {
    if blocks == [] then [] else [PrintBlock(blocks[0])] + PrintBlocks(blocks[1..])
  }

  function SerializeHostCode(blocks: seq<Block>): string {
    Join(PrintBlocks(blocks), "\n\n")
  }

  // ----- names -----

  predicate IsOpName(name: string) {
    exists i :: 0 <= i < |ALL_KINDS| && OpName(ALL_KINDS[i]) == name
  }

  predicate IsValidName(name: string) {
    name != [] && IsLetter(name[0]) && (forall i :: 0 <= i < |name| ==> IsNameChar(name[i])) && !IsOpName(name)
  }

  /** `LHR_OP_NAMES[name]`; None models the KeyError. */
  function FindKind(kinds: seq<OpKind>, name: string): Option<OpKind> {
    if kinds == [] then None
    else if OpName(kinds[0]) == name then Some(kinds[0])
    else FindKind(kinds[1..], name)
  }

  /** The length and the first two characters tell the names apart. */
  function Signature(kind: OpKind): (nat, char, char) {
    match kind
    case SendCMsg => (9, 's', 'e')
    case ReceiveCMsg => (9, 'r', 'e')
    case AddCValue => (10, 'a', 'd')
    case MultConst => (10, 'm', 'u')
    case BcondMultConst => (16, 'b', 'c')
    case AssignCValue => (11, 'a', 's')
    case RunSubroutine => (14, 'r', 'u')
    case RunRequest => (11, 'r', 'u')
    case ReturnResult => (13, 'r', 'e')
    case Busy => (4, 'b', 'u')
    case Jump => (4, 'j', 'u')
    case Beq => (3, 'b', 'e')
    case Bne => (3, 'b', 'n')
    case Blt => (3, 'b', 'l')
    case Bgt => (3, 'b', 'g')
  }

  lemma NameSignature(kind: OpKind)
    ensures |OpName(kind)| >= 2 && Signature(kind) == (|OpName(kind)|, OpName(kind)[0], OpName(kind)[1])
  {
  }

  lemma OpNamesDiffer(a: OpKind, b: OpKind)
    requires OpName(a) == OpName(b)
    ensures a == b
  {
    NameSignature(a);
    NameSignature(b);
    SignaturesDiffer(a, b);
  }

  lemma SignaturesDiffer(a: OpKind, b: OpKind)
    requires Signature(a) == Signature(b)
    ensures a == b
  {
  }

  function KindIndex(kind: OpKind): nat {
    match kind
    case SendCMsg => 0
    case ReceiveCMsg => 1
    case AddCValue => 2
    case MultConst => 3
    case BcondMultConst => 4
    case AssignCValue => 5
    case RunSubroutine => 6
    case RunRequest => 7
    case ReturnResult => 8
    case Busy => 9
    case Jump => 10
    case Beq => 11
    case Bne => 12
    case Blt => 13
    case Bgt => 14
  }

  lemma KindAtIndex(kind: OpKind)
    ensures KindIndex(kind) < |ALL_KINDS| && ALL_KINDS[KindIndex(kind)] == kind
    ensures forall j :: 0 <= j < KindIndex(kind) ==> ALL_KINDS[j] != kind
  {
  }

  /** Every kind is found under its name. */
  lemma KindRoundTrip(kind: OpKind)
    ensures FindKind(ALL_KINDS, OpName(kind)) == Some(kind) && IsOpName(OpName(kind))
  {
    var i := KindIndex(kind);
    KindAtIndex(kind);
    forall j | 0 <= j < i ensures OpName(ALL_KINDS[j]) != OpName(ALL_KINDS[i]) {
      if OpName(ALL_KINDS[j]) == OpName(kind) {
        OpNamesDiffer(ALL_KINDS[j], kind);
      }
    }
    FindAt(ALL_KINDS, i);
  }

  lemma {:induction false} FindAt(kinds: seq<OpKind>, i: nat)
    requires i < |kinds| && forall j :: 0 <= j < i ==> OpName(kinds[j]) != OpName(kinds[i])
    ensures FindKind(kinds, OpName(kinds[i])) == Some(kinds[i])
  {
    if i > 0 {
      FindAt(kinds[1..], i - 1);
    }
  }

  /** The names of the operations. */
  lemma OperationNames()
    ensures FindKind(ALL_KINDS, "send_cmsg") == Some(SendCMsg)
    ensures FindKind(ALL_KINDS, "recv_cmsg") == Some(ReceiveCMsg)
    ensures FindKind(ALL_KINDS, "add_cval_c") == Some(AddCValue)
    ensures FindKind(ALL_KINDS, "mult_const") == Some(MultConst)
    ensures FindKind(ALL_KINDS, "bcond_mult_const") == Some(BcondMultConst)
    ensures FindKind(ALL_KINDS, "assign_cval") == Some(AssignCValue)
    ensures FindKind(ALL_KINDS, "run_subroutine") == Some(RunSubroutine)
    ensures FindKind(ALL_KINDS, "run_request") == Some(RunRequest)
    ensures FindKind(ALL_KINDS, "return_result") == Some(ReturnResult)
    ensures FindKind(ALL_KINDS, "busy") == Some(Busy)
    ensures FindKind(ALL_KINDS, "jump") == Some(Jump)
    ensures FindKind(ALL_KINDS, "beq") == Some(Beq)
    ensures FindKind(ALL_KINDS, "bne") == Some(Bne)
    ensures FindKind(ALL_KINDS, "blt") == Some(Blt)
    ensures FindKind(ALL_KINDS, "bgt") == Some(Bgt)
  {
    forall kind: OpKind ensures FindKind(ALL_KINDS, OpName(kind)) == Some(kind) {
      KindRoundTrip(kind);
    }
    assert OpName(SendCMsg) == "send_cmsg";
    assert OpName(ReceiveCMsg) == "recv_cmsg";
    assert OpName(AddCValue) == "add_cval_c";
    assert OpName(MultConst) == "mult_const";
    assert OpName(BcondMultConst) == "bcond_mult_const";
    assert OpName(AssignCValue) == "assign_cval";
    assert OpName(RunSubroutine) == "run_subroutine";
    assert OpName(RunRequest) == "run_request";
    assert OpName(ReturnResult) == "return_result";
    assert OpName(Busy) == "busy";
    assert OpName(Jump) == "jump";
    assert OpName(Beq) == "beq";
    assert OpName(Bne) == "bne";
    assert OpName(Blt) == "blt";
    assert OpName(Bgt) == "bgt";
  }

  // ----- which operations can be constructed -----

  predicate DefinesVariable(kind: OpKind) {
    kind.ReceiveCMsg? || kind.AddCValue? || kind.MultConst? || kind.BcondMultConst? || kind.AssignCValue?
  }

  predicate IsRoutineCall(kind: OpKind) {
    kind.RunSubroutine? || kind.RunRequest?
  }

  predicate IsBranch(kind: OpKind) {
    kind.Beq? || kind.Bne? || kind.Blt? || kind.Bgt?
  }

  /** An operation that defines a variable needs one, a call may have a collection for its
      results, and no other has a result. */
  ghost predicate ResultFits(kind: OpKind, result: Option<Var>) {
    if DefinesVariable(kind) then result.Some? && result.value.Singleton?
    else result.Some? ==> IsRoutineCall(kind) && (result.value.TupleVar? || result.value.VectorVar?)
  }

  function Arity(kind: OpKind): nat {
    if kind.SendCMsg? || kind.AddCValue? || kind.BcondMultConst? || IsBranch(kind) then 2
    else if kind.AssignCValue? || kind.Busy? || kind.Jump? then 0
    else 1
  }

  /** Calls take a tuple, a result is a variable or a vector, all else works on single values. */
  ghost predicate ArgumentsFit(kind: OpKind, args: seq<Var>) {
    && |args| == Arity(kind)
    && forall arg :: arg in args ==>
         if IsRoutineCall(kind) then arg.TupleVar?
         else if kind.ReturnResult? then arg.Singleton? || arg.VectorVar?
         else arg.Singleton? || arg.Element?
  }

  /** Calls and jumps name their target, the constants of three operations are attributes, of
      which two must be numbers, and no other has one. */
  ghost predicate AttributeFits(kind: OpKind, attr: Option<Value>) {
    if IsRoutineCall(kind) || kind.Jump? || IsBranch(kind) then attr.Some? && attr.value.VStr?
    else if kind.BcondMultConst? || kind.AssignCValue? then attr.Some? && attr.value.VInt?
    else attr.Some? <==> kind.MultConst? || kind.Busy?
  }

  /** The checks let exactly those operations through whose result, arguments and attribute
      fit; a call without arguments counts as one with an empty tuple. */
  lemma ConstructedIffFits(kind: OpKind, result: Option<Var>, args: seq<Var>, attr: Option<Value>)
    ensures var given := if IsRoutineCall(kind) && args == [] then [TupleVar([])] else args;
            && (FromGenericArgs(kind, result, args, attr).Some? <==>
                  ResultFits(kind, result) && ArgumentsFit(kind, given) && AttributeFits(kind, attr))
            && (FromGenericArgs(kind, result, args, attr).Some? ==>
                  FromGenericArgs(kind, result, args, attr) == Some(Op(kind, result, given, attr)))
  {
    var given := if IsRoutineCall(kind) && args == [] then [TupleVar([])] else args;
    assert |given| >= 1 ==> given[0] in given;
    assert |given| >= 2 ==> given[1] in given;
  }
}
