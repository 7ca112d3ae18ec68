/** Parsing of host code (qoala/lang/parse.py:226-622), as functions. The parser classes are
    in ParserClasses.dfy. */
module HostParser {
  import opened Tasks
  import opened Strings
  import opened HostLang

  /** The sizes of the vectors that have been defined so far. */
  type Vectors = map<string, Value>

  /** Python's `text[from : -1]`. */
  function DropLast(text: string): string {
    if text == [] then [] else text[..|text| - 1]
  }

  function ParseNames(text: string): (r: Option<seq<string>>)
    ensures r.Some? ==> forall i :: 0 <= i < |r.value| ==> IsValidName(r.value[i])
  {
    var names := if text == [] then [] else StripAll(Split(text, ';'));
    if forall i :: 0 <= i < |names| ==> IsValidName(names[i]) then Some(names) else None
  }

  function ParseTuple(text: string): Option<Var> {
    if |text| <= 5 || text[5] != '<' || !EndsWith(text, ">") then None
    else if Count(text, '<') > 1 || Count(text, '>') > 1 then None
    else
      var names := ParseNames(DropLast(text[6..]));
      if names.None? then None else Some(TupleVar(names.value))
  }

  /** A number, or else a name. */
  function ParseSize(text: string): Option<Value> {
    var n := ParseInt(text);
    if n.Some? then Some(VInt(n.value))
    else if IsValidName(text) then Some(VStr(text))
    else None
  }

  function ParseVector(text: string): Option<Var> {
    if StartsWith(text, "<") || !EndsWith(text, ">") || Count(text, '<') != 1 || Count(text, '>') != 1 then None
    else
      var parts := Split(text, '<');
      var size := if |parts| > 1 then ParseSize(DropLast(parts[1])) else None;
      if !IsValidName(parts[0]) || size.None? then None else Some(VectorVar(parts[0], size.value))
  }

  function ParseElement(text: string, defined: Vectors): Option<Var> {
    if StartsWith(text, "[") || !EndsWith(text, "]") || Count(text, '[') != 1 || Count(text, ']') != 1 then None
    else
      var parts := Split(text, '[');
      var index := if |parts| > 1 then ParseInt(DropLast(parts[1])) else None;
      if !IsValidName(parts[0]) || parts[0] !in defined || index.None? then None
      else Some(Element(parts[0], index.value))
  }

  /** None models a QoalaParseError. */
  function ParseVar(text: string, isResult: bool, defined: Vectors): Option<Var> {
    if StartsWith(text, "tuple") then ParseTuple(text)
    else if '<' in text then (if isResult then ParseVector(text) else None)
    else if '[' in text then ParseElement(text, defined)
    else if !IsValidName(text) then None
    else if text in defined then Some(VectorVar(text, defined[text]))
    else Some(Singleton(text))
  }

  function ParseVars(texts: seq<string>, defined: Vectors): Option<seq<Var>> {
    if texts == [] then Some([])
    else
      var first := ParseVar(texts[0], false, defined);
      var rest := ParseVars(texts[1..], defined);
      if first.None? || rest.None? then None else Some([first.value] + rest.value)
  }

  /** Removes all closing parentheses from the end. */
  function DropParens(text: string): string {
    if text != [] && text[|text| - 1] == ')' then DropParens(text[..|text| - 1]) else text
  }

  /** The text of an operation and its arguments. */
  function ParseCall(value: string): Option<(string, seq<string>)> {
    var parts := StripAll(Split(value, '('));
    if StartsWith(value, "(") || Count(value, '(') != 1 || Count(value, ')') != 1 || !EndsWith(value, ")") then None
    else if |parts| < 2 then None
    else
      var arguments := DropParens(parts[1]);
      Some((parts[0], if arguments == [] then [] else StripAll(Split(arguments, ','))))
  }

  function ParseAttr(text: string): Value {
    var s := Strip(text);
    var n := ParseInt(s);
    if n.Some? then VInt(n.value) else VStr(s)
  }

  /** The call, and the attribute if there is one. */
  function ParseParts(parts: seq<string>, result: Option<Var>, defined: Vectors): Option<Op> {
    if |parts| == 0 || |parts| > 2 then None
    else
      var attr := if |parts| == 2 then Some(ParseAttr(parts[1])) else None;
      var call := ParseCall(if |parts| == 2 then Strip(parts[0]) else parts[0]);
      if call.None? then None
      else
        var args := ParseVars(call.value.1, defined);
        var kind := FindKind(ALL_KINDS, call.value.0);
        if args.None? || kind.None? then None else FromGenericArgs(kind.value, result, args.value, attr)
  }

  /** What is to the right of the assignment. */
  function ParseRight(value: string, result: Option<Var>, defined: Vectors): Option<Op> {
    ParseParts(StripAll(Split(value, ':')), result, defined)
  }

  function Define(defined: Vectors, result: Option<Var>): Vectors {
    if result.Some? && result.value.VectorVar? then defined[result.value.name := result.value.size] else defined
  }

  /** A vector is defined by its assignment before the arguments are read. */
  function ParseSides(parts: seq<string>, defined: Vectors): Option<(Op, Vectors)> {
    if |parts| == 0 || |parts| > 2 then None
    else
      var result := if |parts| == 2 then ParseVar(parts[0], true, defined) else None;
      if |parts| == 2 && result.None? then None
      else
        var defined' := Define(defined, result);
        var op := ParseRight(parts[|parts| - 1], result, defined');
        if op.None? then None else Some((op.value, defined'))
  }

  /** One instruction. */
  function ParseLine(line: string, defined: Vectors): Option<(Op, Vectors)> {
    ParseSides(StripAll(Split(line, '=')), defined)
  }

  function ParseLines(lines: seq<string>, defined: Vectors): Option<(seq<Op>, Vectors)> {
    if lines == [] then Some(([], defined))
    else
      var before := ParseLines(lines[..|lines| - 1], defined);
      if before.None? then None
      else
        var last := ParseLine(lines[|lines| - 1], before.value.1);
        if last.None? then None else Some((before.value.0 + [last.value.0], last.value.1))
  }

  // ----- blocks -----

  function Find(s: string, c: char): (r: int)
    ensures -1 <= r < |s| && (r >= 0 ==> s[r] == c)
  {
    if s == [] then -1
    else if s[0] == c then 0
    else
      var rest := Find(s[1..], c);
      if rest < 0 then -1 else rest + 1
  }

  function UpperChar(c: char): char {
    if 'a' <= c <= 'z' then c - 'a' + 'A' else c
  }

  function Upper(s: string): (r: string)
    ensures |r| == |s| && forall i :: 0 <= i < |s| ==> r[i] == UpperChar(s[i])
  {
    if s == [] then [] else [UpperChar(s[0])] + Upper(s[1..])
  }

  /** Python's `text[-2:]`. */
  function LastTwo(text: string): string {
    if |text| < 2 then text else text[|text| - 2..]
  }

  function FindType(name: string): Option<BlockType> {
    if name == "CL" then Some(CL)
    else if name == "CC" then Some(CC)
    else if name == "QL" then Some(QL)
    else if name == "QC" then Some(QC)
    else None
  }

  /** Python's `text[from :]`. */
  function DropFirst(text: string, n: nat): string {
    if n <= |text| then text[n..] else []
  }

  /** The text between the first brackets; None models a failed assertion. */
  function Bracketed(text: string): Option<string> {
    var open, close := Find(text, '['), Find(text, ']');
    if open < 0 || close < 0 then None
    else Some(if open < close then text[open + 1..close] else [])
  }

  /** One deadline; the text has no commas any more, since the annotations have been cut
      there. None models the failed unpacking, or the ValueError of `int`. */
  function ParseDeadline(text: string): Option<(string, int)> {
    var item := Bracketed(text);
    if item.None? then None
    else
      var sides := StripAll(Split(item.value, ':'));
      if |sides| != 2 || ParseInt(sides[1]).None? then None else Some((sides[0], ParseInt(sides[1]).value))
  }

  function ParseType(text: string): Option<BlockType> {
    if Count(text, '=') != 1 then None
    else
      var sides := StripAll(Split(text, '='));
      if |sides| < 2 || sides[0] != "type" then None else FindType(Upper(LastTwo(sides[1])))
  }

  /** The type of a block, and its deadline if there is a second annotation; what comes after
      that is ignored. */
  function ParseAnnotations(text: string): Option<(BlockType, BlockDeadlines)> {
    var parts := Split(text, ',');
    var typ := ParseType(parts[0]);
    if typ.None? then None
    else if |parts| == 1 then Some((typ.value, None))
    else
      var deadline := ParseDeadline(DropFirst(Strip(parts[1]), 12));
      if deadline.None? then None else Some((typ.value, Some([deadline.value])))
  }

  function ParseHeader(line: string): Option<(string, BlockType, BlockDeadlines)> {
    if !StartsWith(line, "^") || Count(line, '{') != 1 || Count(line, '}') != 1 then None
    else
      var parts := StripAll(Split(line, '{'));
      if |parts| < 2 || parts[0] == [] then None
      else
        var name := Strip(parts[0][1..]);
        var close := Find(parts[1], '}');
        if !IsValidName(name) || close < 0 || parts[1][close + 1..] != ":" then None
        else
          var annotations := ParseAnnotations(parts[1][..close]);
          if annotations.None? then None else Some((name, annotations.value.0, annotations.value.1))
  }

  predicate IsHeader(line: string) {
    StartsWith(line, "^")
  }

  /** The number of lines before the next header. */
  function BodyLength(lines: seq<string>): (n: nat)
    ensures n <= |lines| && (forall i :: 0 <= i < n ==> !IsHeader(lines[i])) && (n < |lines| ==> IsHeader(lines[n]))
  {
    if lines == [] || IsHeader(lines[0]) then 0 else 1 + BodyLength(lines[1..])
  }

  /** The lines of each block; lines before the first header are ignored. */
  function BlockGroups(lines: seq<string>): seq<seq<string>>
    decreases |lines|
  {
    if lines == [] then []
    else if !IsHeader(lines[0]) then BlockGroups(lines[1..])
    else
      var n := 1 + BodyLength(lines[1..]);
      [lines[..n]] + BlockGroups(lines[n..])
  }

  function ParseBlock(text: string, defined: Vectors): Option<(Block, Vectors)> {
    var lines := Lines(text);
    if lines == [] then None
    else
      var header := ParseHeader(lines[0]);
      var body := ParseLines(Lines(Join(lines[1..], "\n")), defined);
      if header.None? || body.None? then None
      else Some((Block(header.value.0, header.value.1, body.value.0, header.value.2), body.value.1))
  }

  function ParseGroups(groups: seq<seq<string>>, defined: Vectors): Option<(seq<Block>, Vectors)> {
    if groups == [] then Some(([], defined))
    else
      var before := ParseGroups(groups[..|groups| - 1], defined);
      if before.None? then None
      else
        var last := ParseBlock(Join(groups[|groups| - 1], "\n"), before.value.1);
        if last.None? then None else Some((before.value.0 + [last.value.0], last.value.1))
  }

  /** A program must have at least one block. */
  function ParseHostCode(text: string): Option<seq<Block>> {
    var groups := BlockGroups(Lines(text));
    if groups == [] then None
    else
      var blocks := ParseGroups(groups, map[]);
      if blocks.None? then None else Some(blocks.value.0)
  }

  // ----- what survives printing and parsing -----

  predicate GoodValue(v: Value) {
    v.VStr? ==> IsValidName(v.s)
  }

  /** Tuples have at most one name, since printing separates names by commas and parsing by
      semicolons; names of other variables do not look like a tuple. */
  predicate GoodName(name: string) {
    IsValidName(name) && !StartsWith(name, "tuple")
  }

  predicate GoodTuple(v: Var) {
    v.TupleVar? && |v.names| <= 1 && forall i :: 0 <= i < |v.names| ==> IsValidName(v.names[i])
  }

  predicate GoodResult(v: Var, defined: Vectors) {
    match v
    case Singleton(name) => GoodName(name) && name !in defined
    case TupleVar(_) => GoodTuple(v)
    case VectorVar(name, size) => GoodName(name) && GoodValue(size)
    case Element(name, _) => GoodName(name) && name in defined
  }

  predicate GoodArgument(v: Var, defined: Vectors) {
    match v
    case Singleton(name) => GoodName(name) && name !in defined
    case TupleVar(_) => GoodTuple(v)
    case VectorVar(_, _) => false
    case Element(name, _) => GoodName(name) && name in defined
  }

  predicate GoodOp(op: Op, defined: Vectors) {
    && Accepts(op.kind, op.result, op.args, op.attr)
    && (op.result.Some? ==> GoodResult(op.result.value, defined))
    && (forall i :: 0 <= i < |op.args| ==> GoodArgument(op.args[i], Define(defined, op.result)))
    && (op.attr.Some? ==> GoodValue(op.attr.value))
  }

  /** The vectors that are defined after the operations. */
  function DefineAll(defined: Vectors, ops: seq<Op>): Vectors {
    if ops == [] then defined else Define(DefineAll(defined, ops[..|ops| - 1]), ops[|ops| - 1].result)
  }

  predicate GoodOps(ops: seq<Op>, defined: Vectors) {
    forall i :: 0 <= i < |ops| ==> GoodOp(ops[i], DefineAll(defined, ops[..i]))
  }

  function DefinedBy(blocks: seq<Block>): Vectors {
    if blocks == [] then map[] else DefineAll(DefinedBy(blocks[..|blocks| - 1]), blocks[|blocks| - 1].instructions)
  }

  /** Valid block names, no deadlines, and operations that are good where they stand. */
  predicate GoodBlocks(blocks: seq<Block>) {
    forall i :: 0 <= i < |blocks| ==>
      IsValidName(blocks[i].name) && blocks[i].deadlines.None? && GoodOps(blocks[i].instructions, DefinedBy(blocks[..i]))
  }

  // ----- the characters of printed text -----

  predicate IsVarChar(c: char) {
    IsNameChar(c) || c == '<' || c == '>' || c == '[' || c == ']' || c == '-'
  }

  ghost predicate OnlyVarChars(s: string) {
    forall i :: 0 <= i < |s| ==> IsVarChar(s[i])
  }

  lemma NameIsTrimmed(name: string)
    requires IsValidName(name)
    ensures Trimmed(name) && OnlyVarChars(name)
    ensures '<' !in name && '>' !in name && '[' !in name && ']' !in name && ';' !in name
  {
    assert IsNameChar(name[|name| - 1]);
    forall c | c in name ensures IsNameChar(c) {
      var i :| 0 <= i < |name| && name[i] == c;
    }
  }

  lemma NumberChars(n: int)
    ensures OnlyVarChars(Decimal(n))
    ensures forall c :: c in Decimal(n) ==> c != '<' && c != '>' && c != '[' && c != ']'
  {
    var s := Decimal(n);
    forall i | 0 <= i < |s| ensures IsVarChar(s[i]) {
      assert s[i] in s;
    }
  }

  lemma NameIsNoNumber(name: string)
    requires IsValidName(name)
    ensures ParseInt(name).None?
  {
    NameIsTrimmed(name);
    StripTrimmed(name);
  }

  lemma ValueRoundTrip(v: Value)
    requires GoodValue(v)
    ensures ParseSize(PrintValue(v)) == Some(v) && ParseAttr(PrintValue(v)) == v
    ensures Trimmed(PrintValue(v)) && OnlyVarChars(PrintValue(v))
    ensures '<' !in PrintValue(v) && '>' !in PrintValue(v)
  {
    match v
    case VInt(n) =>
      NumberRoundTrip(n);
      NumbersAreTrimmed(n);
      StripTrimmed(Decimal(n));
      NumberChars(n);
    case VStr(s) =>
      NameIsNoNumber(s);
      NameIsTrimmed(s);
      StripTrimmed(s);
  }

  // ----- one variable -----

  lemma SingletonRoundTrip(name: string, isResult: bool, defined: Vectors)
    requires GoodName(name) && name !in defined
    ensures ParseVar(PrintVar(Singleton(name)), isResult, defined) == Some(Singleton(name))
  {
    NameIsTrimmed(name);
  }

  lemma PrefixCharacters(text: string, t: string)
    requires StartsWith(text, t)
    ensures forall i :: 0 <= i < |t| ==> text[i] in t
  {
    forall i | 0 <= i < |t| ensures text[i] in t {
      assert text[..|t|][i] == text[i];
    }
  }

  lemma StartsLikeName(name: string, rest: string)
    requires name != [] && !StartsWith(name, "tuple") && rest != [] && rest[0] !in "tuple"
    ensures !StartsWith(name + rest, "tuple")
  {
    var text, t := name + rest, "tuple";
    assert text[|name|] == rest[0];
    assert |name| >= |t| ==> text[..|t|] == name[..|t|];
    if StartsWith(text, t) {
      PrefixCharacters(text, t);
    }
  }

  /** A name followed by something in brackets. */
  lemma BracketText(name: string, open: char, inner: string, close: char)
    requires name != [] && open != close && open !in name && open !in inner && close !in name && close !in inner
    ensures var text := name + [open] + inner + [close];
            && Split(text, open) == [name, inner + [close]] && DropLast(inner + [close]) == inner
            && Count(text, open) == 1 && Count(text, close) == 1
            && EndsWith(text, [close]) && !StartsWith(text, [open]) && open in text
  {
    var text := name + [open] + inner + [close];
    assert text == name + [open] + (inner + [close]);
    SplitAt(name, open, inner + [close]);
    SplitNone(inner + [close], open);
    CountOne(name, open, inner + [close]);
    assert text == (name + [open] + inner) + [close] + [];
    CountOne(name + [open] + inner, close, []);
    assert text[|name|] == open;
    assert name[0] in name && text[..1] == [name[0]];
  }

  lemma ParsesVector(name: string, size: Value)
    requires GoodName(name) && GoodValue(size)
    ensures ParseVector(name + ['<'] + PrintValue(size) + ['>']) == Some(VectorVar(name, size))
    ensures '<' in name + ['<'] + PrintValue(size) + ['>']
  {
    NameIsTrimmed(name);
    ValueRoundTrip(size);
    BracketText(name, '<', PrintValue(size), '>');
  }

  lemma IsVectorText(text: string, defined: Vectors)
    requires !StartsWith(text, "tuple") && '<' in text
    ensures ParseVar(text, true, defined) == ParseVector(text)
  {
  }

  lemma BracketedName(name: string, open: char, inner: string, close: char, text: string)
    requires GoodName(name) && open !in "tuple" && text == name + [open] + inner + [close]
    ensures !StartsWith(text, "tuple")
  {
    var rest := [open] + inner + [close];
    StartsLikeName(name, rest);
    assert text == name + rest;
  }

  lemma VectorText(name: string, size: Value)
    ensures PrintVar(VectorVar(name, size)) == name + ['<'] + PrintValue(size) + ['>']
  {
    assert "<" == ['<'] && ">" == ['>'];
  }

  lemma VectorRoundTrip(name: string, size: Value, defined: Vectors)
    requires GoodName(name) && GoodValue(size)
    ensures ParseVar(PrintVar(VectorVar(name, size)), true, defined) == Some(VectorVar(name, size))
  {
    var text := name + ['<'] + PrintValue(size) + ['>'];
    ParsesVector(name, size);
    BracketedName(name, '<', PrintValue(size), '>', text);
    IsVectorText(text, defined);
    VectorText(name, size);
  }

  lemma ParsesElement(name: string, index: int, defined: Vectors)
    requires GoodName(name) && name in defined
    ensures ParseElement(name + ['['] + Decimal(index) + [']'], defined) == Some(Element(name, index))
    ensures '[' in name + ['['] + Decimal(index) + [']'] && '<' !in name + ['['] + Decimal(index) + [']']
  {
    NameIsTrimmed(name);
    NumberChars(index);
    NumberRoundTrip(index);
    BracketText(name, '[', Decimal(index), ']');
  }

  lemma IsElementText(text: string, isResult: bool, defined: Vectors)
    requires !StartsWith(text, "tuple") && '<' !in text && '[' in text
    ensures ParseVar(text, isResult, defined) == ParseElement(text, defined)
  {
  }

  lemma ElementText(name: string, index: int)
    ensures PrintVar(Element(name, index)) == name + ['['] + Decimal(index) + [']']
  {
    assert "[" == ['['] && "]" == [']'];
  }

  lemma ElementRoundTrip(name: string, index: int, isResult: bool, defined: Vectors)
    requires GoodName(name) && name in defined
    ensures ParseVar(PrintVar(Element(name, index)), isResult, defined) == Some(Element(name, index))
  {
    var text := name + ['['] + Decimal(index) + [']'];
    ParsesElement(name, index, defined);
    BracketedName(name, '[', Decimal(index), ']', text);
    IsElementText(text, isResult, defined);
    ElementText(name, index);
  }

  /** The text inside the brackets of a tuple. */
  ghost predicate IsInside(inner: string, names: seq<string>) {
    && '<' !in inner && '>' !in inner
    && (if inner == [] then [] else StripAll(Split(inner, ';'))) == names
    && forall i :: 0 <= i < |names| ==> IsValidName(names[i])
  }

  lemma OneNameInside(name: string)
    requires IsValidName(name)
    ensures IsInside(name, [name])
  {
    NameIsTrimmed(name);
    StripTrimmed(name);
    SplitNone(name, ';');
    assert StripAll([name]) == [name];
  }

  lemma TupleBrackets(inner: string, text: string)
    requires '<' !in inner && '>' !in inner && text == "tuple<" + (inner + ">")
    ensures StartsWith(text, "tuple") && text[6..] == inner + ">" && DropLast(inner + ">") == inner
    ensures Count(text, '<') == 1 && Count(text, '>') == 1 && EndsWith(text, ">") && StartsWith(text, "tuple<")
  {
    assert text[..5] == "tuple" && text[5] == '<' && text[..6] == "tuple<";
    assert text == "tuple" + ['<'] + (inner + ">");
    CountOne("tuple", '<', inner + ">");
    assert text == ("tuple<" + inner) + ['>'] + [];
    CountOne("tuple<" + inner, '>', []);
  }

  lemma ParsesTuple(inner: string, names: seq<string>, text: string, isResult: bool, defined: Vectors)
    requires IsInside(inner, names) && text == "tuple<" + (inner + ">")
    ensures ParseVar(text, isResult, defined) == Some(TupleVar(names))
  {
    TupleBrackets(inner, text);
  }

  lemma TupleRoundTrip(v: Var, isResult: bool, defined: Vectors)
    requires GoodTuple(v)
    ensures ParseVar(PrintVar(v), isResult, defined) == Some(v)
  {
    var inner := Join(v.names, ",");
    if v.names != [] {
      OneNameInside(v.names[0]);
      assert v.names == [v.names[0]];
    }
    assert IsInside(inner, v.names);
    ParsesTuple(inner, v.names, "tuple<" + (inner + ">"), isResult, defined);
    assert "tuple<" + inner + ">" == "tuple<" + (inner + ">");
  }
}
