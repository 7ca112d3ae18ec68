/** Parsing printed host code gives the same blocks. */
module HostRoundTrip {
  import opened Tasks
  import opened Strings
  import opened HostLang
  import opened HostParser

  // ----- variables -----

  lemma NameText(name: string, rest: string)
    requires IsValidName(name) && OnlyVarChars(rest)
    ensures OnlyVarChars(name + rest) && Trimmed(name + rest)
  {
    NameIsTrimmed(name);
    var s := name + rest;
    forall i | 0 <= i < |s| ensures IsVarChar(s[i]) {
      assert s[i] == if i < |name| then name[i] else rest[i - |name|];
    }
  }

  lemma TupleText(names: seq<string>)
    requires GoodTuple(TupleVar(names))
    ensures OnlyVarChars("tuple<" + Join(names, ",") + ">") && Trimmed("tuple<" + Join(names, ",") + ">")
  {
    var inner := Join(names, ",");
    if names != [] {
      NameIsTrimmed(names[0]);
      assert names == [names[0]];
    }
    var s := "tuple<" + inner + ">";
    forall i | 0 <= i < |s| ensures IsVarChar(s[i]) {
      assert s[i] == if i < 6 then "tuple<"[i] else if i < 6 + |inner| then inner[i - 6] else '>';
    }
  }

  lemma BracketedText(name: string, inner: string, text: string)
    requires IsValidName(name) && OnlyVarChars(inner)
    requires text == name + ("<" + inner + ">") || text == name + ("[" + inner + "]")
    ensures OnlyVarChars(text) && Trimmed(text)
  {
    if text == name + ("<" + inner + ">") {
      NameText(name, "<" + inner + ">");
    } else {
      NameText(name, "[" + inner + "]");
    }
  }

  lemma VectorVarText(name: string, size: Value)
    requires IsValidName(name) && GoodValue(size)
    ensures OnlyVarChars(PrintVar(VectorVar(name, size))) && Trimmed(PrintVar(VectorVar(name, size)))
  {
    ValueRoundTrip(size);
    assert PrintVar(VectorVar(name, size)) == name + ("<" + PrintValue(size) + ">");
    BracketedText(name, PrintValue(size), PrintVar(VectorVar(name, size)));
  }

  lemma ElementText(name: string, index: int)
    requires IsValidName(name)
    ensures OnlyVarChars(PrintVar(Element(name, index))) && Trimmed(PrintVar(Element(name, index)))
  {
    NumberChars(index);
    assert PrintVar(Element(name, index)) == name + ("[" + Decimal(index) + "]");
    BracketedText(name, Decimal(index), PrintVar(Element(name, index)));
  }

  /** Printed variables have no characters that separate the parts of an instruction. */
  lemma VarText(v: Var, defined: Vectors)
    requires GoodResult(v, defined) || GoodArgument(v, defined)
    ensures OnlyVarChars(PrintVar(v)) && Trimmed(PrintVar(v))
  {
    match v
    case Singleton(name) => NameIsTrimmed(name);
    case TupleVar(names) => TupleText(names);
    case VectorVar(name, size) => VectorVarText(name, size);
    case Element(name, index) => ElementText(name, index);
  }

  lemma ResultRoundTrip(v: Var, defined: Vectors)
    requires GoodResult(v, defined)
    ensures ParseVar(PrintVar(v), true, defined) == Some(v)
  {
    match v
    case Singleton(name) => SingletonRoundTrip(name, true, defined);
    case TupleVar(names) => TupleRoundTrip(v, true, defined);
    case VectorVar(name, size) => VectorRoundTrip(name, size, defined);
    case Element(name, index) => ElementRoundTrip(name, index, true, defined);
  }

  lemma ArgumentRoundTrip(v: Var, defined: Vectors)
    requires GoodArgument(v, defined)
    ensures ParseVar(PrintVar(v), false, defined) == Some(v)
  {
    match v
    case Singleton(name) => SingletonRoundTrip(name, false, defined);
    case TupleVar(names) => TupleRoundTrip(v, false, defined);
    case Element(name, index) => ElementRoundTrip(name, index, false, defined);
  }

  // ----- exactly which variables survive -----

  lemma {:induction false} JoinHasNo(parts: seq<string>, sep: string, c: char)
    requires c !in sep && forall i :: 0 <= i < |parts| ==> c !in parts[i]
    ensures c !in Join(parts, sep)
  {
    if |parts| > 1 {
      JoinHasNo(parts[1..], sep, c);
    }
  }

  lemma LongTuplesAreLost(names: seq<string>, isResult: bool, defined: Vectors)
    requires |names| >= 2 && forall i :: 0 <= i < |names| ==> IsValidName(names[i])
    ensures ParseVar(PrintVar(TupleVar(names)), isResult, defined) != Some(TupleVar(names))
  {
    var inner := Join(names, ",");
    forall i | 0 <= i < |names| ensures ';' !in names[i] {
      NameIsTrimmed(names[i]);
    }
    JoinHasNo(names, ",", ';');
    SplitNone(inner, ';');
    var text := "tuple<" + inner + ">";
    assert text[..5] == "tuple" && text[6..] == inner + ">" && DropLast(inner + ">") == inner;
  }

  lemma TupleStart(name: string, rest: string)
    requires StartsWith(name, "tuple")
    ensures StartsWith(name + rest, "tuple")
  {
    assert (name + rest)[..5] == name[..5];
  }

  lemma TextStartsWithName(v: Var)
    requires (v.Singleton? || v.VectorVar? || v.Element?) && StartsWith(v.name, "tuple")
    ensures StartsWith(PrintVar(v), "tuple")
  {
    match v
    case Singleton(name) =>
    case VectorVar(name, size) =>
      TupleStart(name, "<" + PrintValue(size) + ">");
      assert PrintVar(v) == name + ("<" + PrintValue(size) + ">");
    case Element(name, index) =>
      TupleStart(name, "[" + Decimal(index) + "]");
      assert PrintVar(v) == name + ("[" + Decimal(index) + "]");
  }

  lemma NoTupleName(v: Var, isResult: bool, defined: Vectors)
    requires (v.Singleton? || v.VectorVar? || v.Element?) && ParseVar(PrintVar(v), isResult, defined) == Some(v)
    ensures !StartsWith(v.name, "tuple")
  {
    if StartsWith(v.name, "tuple") {
      TextStartsWithName(v);
    }
  }

  /** What the parser checks of the variables it returns. */
  lemma ParsedIsChecked(text: string, isResult: bool, defined: Vectors)
    ensures var v := ParseVar(text, isResult, defined);
            v.Some? ==>
              match v.value
              case Singleton(name) => IsValidName(name) && name !in defined
              case TupleVar(names) => forall i :: 0 <= i < |names| ==> IsValidName(names[i])
              case VectorVar(name, size) => '<' in text ==> isResult && IsValidName(name) && GoodValue(size)
              case Element(name, _) => IsValidName(name) && name in defined
  {
  }

  lemma TupleSurvivor(names: seq<string>, isResult: bool, defined: Vectors)
    requires ParseVar(PrintVar(TupleVar(names)), isResult, defined) == Some(TupleVar(names))
    ensures GoodTuple(TupleVar(names))
  {
    ParsedIsChecked(PrintVar(TupleVar(names)), isResult, defined);
    if |names| >= 2 {
      LongTuplesAreLost(names, isResult, defined);
    }
  }

  lemma SurvivorIsGood(v: Var, isResult: bool, defined: Vectors)
    requires ParseVar(PrintVar(v), isResult, defined) == Some(v)
    ensures if isResult then GoodResult(v, defined) else GoodArgument(v, defined)
  {
    ParsedIsChecked(PrintVar(v), isResult, defined);
    match v
    case TupleVar(names) => TupleSurvivor(names, isResult, defined);
    case VectorVar(name, size) =>
      NoTupleName(v, isResult, defined);
      assert PrintVar(v)[|name|] == '<';
    case _ => NoTupleName(v, isResult, defined);
  }

  /** A printed result is parsed back to itself exactly if it is in the fragment. */
  lemma ResultSurvivesIffGood(v: Var, defined: Vectors)
    ensures ParseVar(PrintVar(v), true, defined) == Some(v) <==> GoodResult(v, defined)
  {
    if GoodResult(v, defined) {
      ResultRoundTrip(v, defined);
    } else if ParseVar(PrintVar(v), true, defined) == Some(v) {
      SurvivorIsGood(v, true, defined);
    }
  }

  /** The same for an argument: whole vectors are never parsed back. */
  lemma ArgumentSurvivesIffGood(v: Var, defined: Vectors)
    ensures ParseVar(PrintVar(v), false, defined) == Some(v) <==> GoodArgument(v, defined)
  {
    if GoodArgument(v, defined) {
      ArgumentRoundTrip(v, defined);
    } else if ParseVar(PrintVar(v), false, defined) == Some(v) {
      SurvivorIsGood(v, false, defined);
    }
  }

  lemma {:induction false} ArgumentsRoundTrip(args: seq<Var>, defined: Vectors)
    requires forall i :: 0 <= i < |args| ==> GoodArgument(args[i], defined)
    ensures ParseVars(PrintVars(args), defined) == Some(args)
  {
    if args == [] {
    } else {
      ArgumentRoundTrip(args[0], defined);
      ArgumentsRoundTrip(args[1..], defined);
      assert PrintVars(args)[1..] == PrintVars(args[1..]);
      assert [args[0]] + args[1..] == args;
    }
  }

  // ----- argument lists -----

  predicate IsArgChar(c: char) {
    IsVarChar(c) || c == ',' || c == ' '
  }

  ghost predicate OnlyArgChars(s: string) {
    forall i :: 0 <= i < |s| ==> IsArgChar(s[i])
  }

  lemma {:induction false} JoinText(parts: seq<string>)
    requires parts != [] && forall i :: 0 <= i < |parts| ==> OnlyVarChars(parts[i]) && Trimmed(parts[i])
    ensures OnlyArgChars(Join(parts, ", ")) && Trimmed(Join(parts, ", "))
  {
    if |parts| > 1 {
      var tail := Join(parts[1..], ", ");
      JoinText(parts[1..]);
      var s := parts[0] + ", " + tail;
      forall i | 0 <= i < |s| ensures IsArgChar(s[i]) {
        assert s[i] == if i < |parts[0]| then parts[0][i]
                       else if i < |parts[0]| + 2 then ", "[i - |parts[0]|] else tail[i - |parts[0]| - 2];
      }
    }
  }

  /** What the parser makes of the printed arguments. */
  function ArgTexts(args: seq<Var>): seq<string> {
    if args == [TupleVar([])] then [] else PrintVars(args)
  }

  ghost predicate GoodArguments(args: seq<Var>, defined: Vectors) {
    forall i :: 0 <= i < |args| ==> GoodArgument(args[i], defined)
  }

  lemma ArgsText(args: seq<Var>, defined: Vectors)
    requires GoodArguments(args, defined)
    ensures OnlyArgChars(PrintArgs(args))
    ensures PrintArgs(args) == [] <==> ArgTexts(args) == []
    ensures PrintArgs(args) != [] ==> Trimmed(PrintArgs(args)) && StripAll(Split(PrintArgs(args), ',')) == ArgTexts(args)
  {
    if args != [] && args != [TupleVar([])] {
      var parts := PrintVars(args);
      forall i | 0 <= i < |parts| ensures OnlyVarChars(parts[i]) && Trimmed(parts[i]) && ',' !in parts[i] {
        VarText(args[i], defined);
      }
      JoinText(parts);
      forall p | p in parts ensures Trimmed(p) && ',' !in p {
        var i :| 0 <= i < |parts| && parts[i] == p;
      }
      SplitJoin(parts, ',');
      assert [',', ' '] == ", ";
    }
  }

  // ----- calls -----

  lemma OpNameText(kind: OpKind)
    ensures Trimmed(OpName(kind)) && forall c :: c in OpName(kind) ==> IsNameChar(c)
  {
  }

  lemma DropOneParen(text: string)
    requires text == [] || text[|text| - 1] != ')'
    ensures DropParens(text + ")") == text
  {
    assert (text + ")")[..|text|] == text;
  }

  lemma ArgCharsExclude(s: string)
    requires OnlyArgChars(s)
    ensures '(' !in s && ')' !in s && ':' !in s && '=' !in s && '\n' !in s
  {
  }

  /** A text with a name before its parenthesis, and the arguments inside. */
  ghost predicate IsCallText(value: string, name: string, inner: string) {
    && Split(value, '(') == [name, inner + ")"]
    && Count(value, '(') == 1 && Count(value, ')') == 1 && EndsWith(value, ")") && !StartsWith(value, "(")
  }

  lemma CallParts(name: string, inner: string)
    requires Trimmed(name) && (forall c :: c in name ==> IsNameChar(c)) && OnlyArgChars(inner)
    ensures IsCallText(name + ['('] + inner + [')'], name, inner)
  {
    ArgCharsExclude(inner);
    BracketText(name, '(', inner, ')');
  }

  lemma StripPair(a: string, b: string)
    requires Strip(a) == a && Strip(b) == b
    ensures StripAll([a, b]) == [a, b]
  {
    assert [a, b][1..] == [b];
  }

  lemma ParsesCallText(value: string, name: string, inner: string)
    requires IsCallText(value, name, inner) && StripAll([name, inner + ")"]) == [name, inner + ")"]
    requires DropParens(inner + ")") == inner
    ensures ParseCall(value) == Some((name, if inner == [] then [] else StripAll(Split(inner, ','))))
  {
  }

  lemma InnerIsKept(inner: string)
    requires OnlyArgChars(inner) && (inner != [] ==> Trimmed(inner))
    ensures Strip(inner + ")") == inner + ")" && DropParens(inner + ")") == inner
  {
    assert Trimmed(inner + ")");
    StripTrimmed(inner + ")");
    ArgCharsExclude(inner);
    DropOneParen(inner);
  }

  lemma CallRoundTrip(name: string, inner: string)
    requires Trimmed(name) && (forall c :: c in name ==> IsNameChar(c))
    requires OnlyArgChars(inner) && (inner != [] ==> Trimmed(inner))
    ensures ParseCall(name + ['('] + inner + [')']) == Some((name, if inner == [] then [] else StripAll(Split(inner, ','))))
  {
    CallParts(name, inner);
    StripTrimmed(name);
    InnerIsKept(inner);
    StripPair(name, inner + ")");
    ParsesCallText(name + ['('] + inner + [')'], name, inner);
  }

  lemma CallText(op: Op, defined: Vectors)
    requires GoodArguments(op.args, defined)
    ensures var value := PrintCall(op);
            && Trimmed(value) && ':' !in value && '=' !in value && '\n' !in value
            && IsLetter(value[0])
  {
    ArgsText(op.args, defined);
    ArgCharsExclude(PrintArgs(op.args));
    OpNameText(op.kind);
    NameSignature(op.kind);
    var value := PrintCall(op);
    assert value[0] == OpName(op.kind)[0];
    assert forall c :: c in value ==> c in OpName(op.kind) || c == '(' || c in PrintArgs(op.args) || c == ')';
  }

  lemma ParsesCall(op: Op, defined: Vectors)
    requires GoodArguments(op.args, defined)
    ensures ParseCall(PrintCall(op)) == Some((OpName(op.kind), ArgTexts(op.args)))
  {
    ArgsText(op.args, defined);
    OpNameText(op.kind);
    CallRoundTrip(OpName(op.kind), PrintArgs(op.args));
    assert PrintCall(op) == OpName(op.kind) + ['('] + PrintArgs(op.args) + [')'];
  }

  // ----- one instruction -----

  lemma ParsedArgs(args: seq<Var>, defined: Vectors)
    requires GoodArguments(args, defined)
    ensures ParseVars(ArgTexts(args), defined) == Some(if args == [TupleVar([])] then [] else args)
  {
    if args != [TupleVar([])] {
      ArgumentsRoundTrip(args, defined);
    }
  }

  lemma SplitAround(a: string, c: char, b: string)
    requires Trimmed(a) && Trimmed(b) && c !in a && c !in b && c != ' '
    ensures StripAll(Split(a + [' ', c, ' '] + b, c)) == [a, b]
  {
    assert a + [' ', c, ' '] + b == (a + " ") + [c] + (" " + b);
    SplitAt(a + " ", c, " " + b);
    SplitNone(" " + b, c);
    StripTrimmed(a);
    StripTrimmed(b);
    assert StripAll([a + " ", " " + b]) == [a, b];
  }

  lemma SplitAlone(a: string, c: char)
    requires Trimmed(a) && c !in a
    ensures StripAll(Split(a, c)) == [a]
  {
    SplitNone(a, c);
    StripTrimmed(a);
    assert StripAll([a]) == [a];
  }

  lemma VarCharsExclude(s: string)
    requires OnlyVarChars(s)
    ensures '(' !in s && ')' !in s && ':' !in s && '=' !in s && '\n' !in s && '^' !in s
  {
  }

  lemma AroundText(a: string, c: char, b: string, x: char)
    requires Trimmed(a) && Trimmed(b) && x !in a && x !in b && x != ' ' && x != c
    ensures var s := a + [' ', c, ' '] + b;
            Trimmed(s) && s[0] == a[0] && x !in s
  {
    var s := a + [' ', c, ' '] + b;
    assert s[0] == a[0] && s[|s| - 1] == b[|b| - 1];
  }

  function RightParts(op: Op): seq<string> {
    [PrintCall(op)] + if op.attr.Some? then [PrintValue(op.attr.value)] else []
  }

  lemma PrintedRight(op: Op)
    requires op.attr.Some? ==> PrintValue(op.attr.value) != []
    ensures PrintRight(op) ==
            if op.attr.Some? then PrintCall(op) + [' ', ':', ' '] + PrintValue(op.attr.value) else PrintCall(op)
  {
    assert [' ', ':', ' '] == " : ";
  }

  lemma CallWithAttr(call: string, attr: string)
    requires Trimmed(call) && ':' !in call && '=' !in call && '\n' !in call && Trimmed(attr) && OnlyVarChars(attr)
    ensures var s := call + [' ', ':', ' '] + attr;
            && Trimmed(s) && '=' !in s && '\n' !in s && s[0] == call[0] && StripAll(Split(s, ':')) == [call, attr]
  {
    VarCharsExclude(attr);
    SplitAround(call, ':', attr);
    AroundText(call, ':', attr, '=');
    AroundText(call, ':', attr, '\n');
  }

  lemma RightText(op: Op, defined: Vectors)
    requires GoodArguments(op.args, defined) && (op.attr.Some? ==> GoodValue(op.attr.value))
    ensures var right := PrintRight(op);
            && Trimmed(right) && '=' !in right && '\n' !in right && IsLetter(right[0])
            && StripAll(Split(right, ':')) == RightParts(op)
  {
    CallText(op, defined);
    if op.attr.Some? {
      ValueRoundTrip(op.attr.value);
      CallWithAttr(PrintCall(op), PrintValue(op.attr.value));
    } else {
      SplitAlone(PrintCall(op), ':');
    }
    PrintedRight(op);
  }

  /** What the parser finds out about a call. */
  ghost predicate CallMeans(call: string, name: string, texts: seq<string>, args: seq<Var>, kind: OpKind,
                            defined: Vectors) {
    && Strip(call) == call && ParseCall(call) == Some((name, texts))
    && ParseVars(texts, defined) == Some(args) && FindKind(ALL_KINDS, name) == Some(kind)
  }

  lemma OnePart(call: string, name: string, texts: seq<string>, args: seq<Var>, kind: OpKind, defined: Vectors,
                result: Option<Var>)
    requires CallMeans(call, name, texts, args, kind, defined)
    ensures ParseParts([call], result, defined) == FromGenericArgs(kind, result, args, None)
  {
  }

  lemma TwoParts(call: string, name: string, texts: seq<string>, args: seq<Var>, kind: OpKind, defined: Vectors,
                 result: Option<Var>, attr: string)
    requires CallMeans(call, name, texts, args, kind, defined)
    ensures ParseParts([call, attr], result, defined) == FromGenericArgs(kind, result, args, Some(ParseAttr(attr)))
  {
  }

  lemma PrintedCallMeans(op: Op, defined: Vectors)
    requires GoodArguments(op.args, defined) && Strip(PrintCall(op)) == PrintCall(op)
    ensures CallMeans(PrintCall(op), OpName(op.kind), ArgTexts(op.args),
                      if op.args == [TupleVar([])] then [] else op.args, op.kind, defined)
  {
    ParsesCall(op, defined);
    ParsedArgs(op.args, defined);
    KindRoundTrip(op.kind);
  }

  lemma PartsRoundTrip(op: Op, defined: Vectors)
    requires Accepts(op.kind, op.result, op.args, op.attr) && GoodArguments(op.args, defined)
    requires op.attr.Some? ==> GoodValue(op.attr.value)
    requires Strip(PrintCall(op)) == PrintCall(op)
    ensures ParseParts(RightParts(op), op.result, defined) == Some(op)
  {
    var call, args := PrintCall(op), if op.args == [TupleVar([])] then [] else op.args;
    PrintedCallMeans(op, defined);
    RebuildsOp(op);
    if op.attr.Some? {
      ValueRoundTrip(op.attr.value);
      TwoParts(call, OpName(op.kind), ArgTexts(op.args), args, op.kind, defined, op.result, PrintValue(op.attr.value));
    } else {
      OnePart(call, OpName(op.kind), ArgTexts(op.args), args, op.kind, defined, op.result);
    }
  }

  lemma RebuildsOp(op: Op)
    requires Accepts(op.kind, op.result, op.args, op.attr)
    ensures FromGenericArgs(op.kind, op.result, if op.args == [TupleVar([])] then [] else op.args, op.attr) == Some(op)
  {
  }

  lemma RightRoundTrip(op: Op, defined: Vectors)
    requires Accepts(op.kind, op.result, op.args, op.attr) && GoodArguments(op.args, defined)
    requires op.attr.Some? ==> GoodValue(op.attr.value)
    ensures ParseRight(PrintRight(op), op.result, defined) == Some(op)
  {
    RightText(op, defined);
    CallText(op, defined);
    StripTrimmed(PrintCall(op));
    PartsRoundTrip(op, defined);
  }

  function Sides(op: Op): seq<string> {
    (if op.result.Some? then [PrintVar(op.result.value)] else []) + [PrintRight(op)]
  }

  lemma PrintedOp(op: Op)
    requires op.result.Some? ==> PrintVar(op.result.value) != []
    ensures PrintOp(op) ==
            if op.result.Some? then PrintVar(op.result.value) + [' ', '=', ' '] + PrintRight(op) else PrintRight(op)
  {
    assert [' ', '=', ' '] == " = ";
  }

  /** A line of code that the parser splits into these sides. */
  ghost predicate IsCodeLine(line: string, sides: seq<string>) {
    Trimmed(line) && '\n' !in line && line[0] != '^' && StripAll(Split(line, '=')) == sides
  }

  lemma Assignment(result: string, right: string)
    requires Trimmed(result) && OnlyVarChars(result) && Trimmed(right) && '=' !in right && '\n' !in right
    ensures IsCodeLine(result + [' ', '=', ' '] + right, [result, right])
  {
    VarCharsExclude(result);
    SplitAround(result, '=', right);
    AroundText(result, '=', right, '\n');
    assert result[0] in result;
  }

  lemma PlainLine(right: string)
    requires Trimmed(right) && '=' !in right && '\n' !in right && IsLetter(right[0])
    ensures IsCodeLine(right, [right])
  {
    SplitAlone(right, '=');
  }

  lemma OpText(op: Op, defined: Vectors)
    requires GoodOp(op, defined)
    ensures IsCodeLine(PrintOp(op), Sides(op))
  {
    RightText(op, Define(defined, op.result));
    if op.result.Some? {
      VarText(op.result.value, defined);
      Assignment(PrintVar(op.result.value), PrintRight(op));
      TwoSides(op);
    } else {
      PlainLine(PrintRight(op));
      OneSide(op);
    }
  }

  lemma TwoSides(op: Op)
    requires op.result.Some? && PrintVar(op.result.value) != []
    ensures Sides(op) == [PrintVar(op.result.value), PrintRight(op)]
    ensures PrintOp(op) == PrintVar(op.result.value) + [' ', '=', ' '] + PrintRight(op)
  {
    PrintedOp(op);
  }

  lemma OneSide(op: Op)
    requires op.result.None?
    ensures Sides(op) == [PrintRight(op)] && PrintOp(op) == PrintRight(op)
  {
    PrintedOp(op);
  }

  lemma SidesRoundTrip(op: Op, defined: Vectors)
    requires op.result.Some? ==> ParseVar(PrintVar(op.result.value), true, defined) == op.result
    requires ParseRight(PrintRight(op), op.result, Define(defined, op.result)) == Some(op)
    ensures ParseSides(Sides(op), defined) == Some((op, Define(defined, op.result)))
  {
  }

  /** Parsing a printed operation gives the operation, of the same kind, and the vector
      it defines. */
  lemma OpRoundTrip(op: Op, defined: Vectors)
    requires GoodOp(op, defined)
    ensures ParseLine(PrintOp(op), defined) == Some((op, Define(defined, op.result)))
  {
    OpText(op, defined);
    RightRoundTrip(op, Define(defined, op.result));
    if op.result.Some? {
      ResultRoundTrip(op.result.value, defined);
    }
    SidesRoundTrip(op, defined);
  }

  // ----- lines -----

  function PrintOps(ops: seq<Op>): (r: seq<string>)
    ensures |r| == |ops| && forall i :: 0 <= i < |ops| ==> r[i] == PrintOp(ops[i])
  {
    if ops == [] then [] else PrintOps(ops[..|ops| - 1]) + [PrintOp(ops[|ops| - 1])]
  }

  function BlockLines(b: Block): seq<string> {
    [PrintHeader(b)] + PrintOps(b.instructions)
  }

  /** Lines that are neither empty, nor have spaces at their ends or line breaks. */
  ghost predicate CleanLines(lines: seq<string>) {
    forall i :: 0 <= i < |lines| ==> Trimmed(lines[i]) && '\n' !in lines[i]
  }

  lemma CleanLine(line: string)
    requires Trimmed(line) && '\n' !in line
    ensures Lines(line) == [line] && Lines("    " + line) == [line]
  {
    OneLine(line);
    StripTrimmed(line);
    OneLine("    " + line);
    assert "    " == seq(4, _ => ' ');
    StripIndent(line, 4);
  }

  lemma {:induction false} LinesOfJoin(lines: seq<string>)
    requires CleanLines(lines)
    ensures Lines(Join(lines, "\n")) == lines
  {
    if lines == [] {
      OneLine("");
    } else {
      CleanLine(lines[0]);
      if |lines| > 1 {
        LinesOfJoin(lines[1..]);
        LinesConcat(lines[0], Join(lines[1..], "\n"));
        assert [lines[0]] + lines[1..] == lines;
      } else {
        assert lines == [lines[0]];
      }
    }
  }

  lemma {:induction false} LinesOfIndented(lines: seq<string>, indented: seq<string>)
    requires CleanLines(lines) && |indented| == |lines| && forall i :: 0 <= i < |lines| ==> indented[i] == "    " + lines[i]
    ensures Lines(Join(indented, "\n")) == lines
  {
    if lines == [] {
      OneLine("");
    } else {
      CleanLine(lines[0]);
      if |lines| > 1 {
        LinesOfIndented(lines[1..], indented[1..]);
        LinesConcat(indented[0], Join(indented[1..], "\n"));
        assert [lines[0]] + lines[1..] == lines;
      } else {
        assert lines == [lines[0]];
      }
    }
  }

  lemma LinesOfOps(ops: seq<Op>)
    requires CleanLines(PrintOps(ops))
    ensures Lines(Join(Indented(ops), "\n")) == PrintOps(ops)
  {
    LinesOfIndented(PrintOps(ops), Indented(ops));
  }

  lemma OpIsClean(op: Op, line: string, defined: Vectors)
    requires GoodOp(op, defined) && line == PrintOp(op)
    ensures Trimmed(line) && '\n' !in line && !IsHeader(line)
  {
    OpText(op, defined);
  }

  lemma OpsAreClean(ops: seq<Op>, defined: Vectors)
    requires GoodOps(ops, defined)
    ensures CleanLines(PrintOps(ops)) && forall i :: 0 <= i < |ops| ==> !IsHeader(PrintOps(ops)[i])
  {
    var lines := PrintOps(ops);
    forall i | 0 <= i < |ops| ensures Trimmed(lines[i]) && '\n' !in lines[i] && !IsHeader(lines[i]) {
      OpIsClean(ops[i], lines[i], DefineAll(defined, ops[..i]));
    }
  }

  lemma ParseOneMore(lines: seq<string>, defined: Vectors, ops: seq<Op>, between: Vectors, op: Op, after: Vectors)
    requires lines != [] && ParseLines(lines[..|lines| - 1], defined) == Some((ops, between))
    requires ParseLine(lines[|lines| - 1], between) == Some((op, after))
    ensures ParseLines(lines, defined) == Some((ops + [op], after))
  {
  }

  lemma PrintOpsParts(ops: seq<Op>)
    requires ops != []
    ensures PrintOps(ops)[..|ops| - 1] == PrintOps(ops[..|ops| - 1])
    ensures PrintOps(ops)[|ops| - 1] == PrintOp(ops[|ops| - 1])
  {
  }

  lemma GoodOpsPrefix(ops: seq<Op>, defined: Vectors, n: nat)
    requires GoodOps(ops, defined) && n <= |ops|
    ensures GoodOps(ops[..n], defined)
  {
    forall i | 0 <= i < n ensures GoodOp(ops[..n][i], DefineAll(defined, ops[..n][..i])) {
      assert ops[..n][..i] == ops[..i];
    }
  }

  lemma FrontAndLast<T>(s: seq<T>)
    requires s != []
    ensures s[..|s| - 1] + [s[|s| - 1]] == s
  {
  }

  lemma LastOpRoundTrip(ops: seq<Op>, line: string, defined: Vectors)
    requires ops != [] && GoodOps(ops, defined) && line == PrintOp(ops[|ops| - 1])
    ensures ParseLine(line, DefineAll(defined, ops[..|ops| - 1])) == Some((ops[|ops| - 1], DefineAll(defined, ops)))
  {
    OpRoundTrip(ops[|ops| - 1], DefineAll(defined, ops[..|ops| - 1]));
  }

  lemma {:induction false} OpsRoundTrip(ops: seq<Op>, defined: Vectors)
    requires GoodOps(ops, defined)
    ensures ParseLines(PrintOps(ops), defined) == Some((ops, DefineAll(defined, ops)))
  {
    if ops != [] {
      var n := |ops| - 1;
      var lines := PrintOps(ops);
      GoodOpsPrefix(ops, defined, n);
      OpsRoundTrip(ops[..n], defined);
      PrintOpsParts(ops);
      LastOpRoundTrip(ops, lines[n], defined);
      ParseOneMore(lines, defined, ops[..n], DefineAll(defined, ops[..n]), ops[n], DefineAll(defined, ops));
      FrontAndLast(ops);
    }
  }

  // ----- headers -----

  lemma TypeText(typ: BlockType)
    ensures |TypeName(typ)| == 2 && FindType(Upper(TypeName(typ))) == Some(typ)
    ensures forall c :: c in TypeName(typ) ==> 'A' <= c <= 'Z'
  {
    var t := TypeName(typ);
    assert Upper(t) == t;
  }

  lemma ParsesAnnotation(text: string, value: string, typ: BlockType)
    requires ',' !in text && Count(text, '=') == 1 && StripAll(Split(text, '=')) == ["type", value]
    requires |value| == 2 && FindType(Upper(value)) == Some(typ)
    ensures ParseAnnotations(text) == Some((typ, None))
  {
    SplitNone(text, ',');
  }

  lemma AnnotationText(value: string)
    requires Trimmed(value) && '=' !in value && ',' !in value
    ensures var text := "type = " + value;
            ',' !in text && Count(text, '=') == 1 && StripAll(Split(text, '=')) == ["type", value]
  {
    var text := "type = " + value;
    assert text == "type" + [' ', '=', ' '] + value;
    SplitAround("type", '=', value);
    assert text == "type " + ['='] + (" " + value);
    CountOne("type ", '=', " " + value);
  }

  lemma AnnotationsRoundTrip(typ: BlockType)
    ensures ParseAnnotations("type = " + TypeName(typ)) == Some((typ, None))
  {
    TypeText(typ);
    AnnotationText(TypeName(typ));
    ParsesAnnotation("type = " + TypeName(typ), TypeName(typ), typ);
  }

  lemma {:induction false} FindAfter(a: string, c: char, b: string)
    requires c !in a
    ensures Find(a + [c] + b, c) == |a|
  {
    var s := a + [c] + b;
    if a != [] {
      assert a[0] in a;
      assert s[0] == a[0] && s[1..] == a[1..] + [c] + b;
      FindAfter(a[1..], c, b);
    }
  }

  lemma HeaderSplits(left: string, right: string, line: string)
    requires line == left + ['{'] + right && '{' !in left && '{' !in right
    ensures Split(line, '{') == [left, right] && Count(line, '{') == 1
  {
    SplitAt(left, '{', right);
    SplitNone(right, '{');
    CountOne(left, '{', right);
  }

  lemma HeaderCloses(front: string, line: string)
    requires line == front + ['}'] + ":" && '}' !in front
    ensures Count(line, '}') == 1
  {
    CountOne(front, '}', ":");
  }

  /** A header line with this name and these annotations. */
  ghost predicate IsHeaderText(line: string, name: string, inner: string) {
    && Trimmed(line) && '\n' !in line && IsHeader(line)
    && Count(line, '{') == 1 && Count(line, '}') == 1
    && StripAll(Split(line, '{')) == ["^" + name, inner + "}:"]
  }

  lemma HeaderParts(name: string, inner: string)
    requires Trimmed(name) && inner != [] && !IsSpace(inner[0])
    ensures Strip("^" + name + " ") == "^" + name && Strip(inner + "}:") == inner + "}:"
  {
    StripTrimmed("^" + name);
    StripTrimmed(inner + "}:");
  }

  lemma HeaderText(name: string, inner: string, line: string)
    requires IsValidName(name) && inner != [] && !IsSpace(inner[0]) && '{' !in inner && '}' !in inner && '\n' !in inner
    requires line == "^" + name + " {" + inner + "}:"
    ensures IsHeaderText(line, name, inner)
  {
    NameIsTrimmed(name);
    NameHasNoBraces(name);
    var left, right := "^" + name + " ", inner + "}:";
    assert line == left + ['{'] + right;
    HeaderSplits(left, right, line);
    assert line == (left + "{" + inner) + ['}'] + ":";
    HeaderCloses(left + "{" + inner, line);
    HeaderParts(name, inner);
    StripBoth(left, right, "^" + name, right);
  }

  lemma NameHasNoBraces(name: string)
    requires IsValidName(name)
    ensures '{' !in name && '}' !in name && '\n' !in name
  {
    assert forall c :: c in name ==> IsNameChar(c);
  }

  lemma StripBoth(a: string, b: string, a': string, b': string)
    requires Strip(a) == a' && Strip(b) == b'
    ensures StripAll([a, b]) == [a', b']
  {
    assert [a, b][1..] == [b];
  }

  lemma ParsesHeader(line: string, head: string, rest: string, close: nat, name: string, typ: BlockType)
    requires IsHeader(line) && Count(line, '{') == 1 && Count(line, '}') == 1 &&
             StripAll(Split(line, '{')) == [head, rest]
    requires head != [] && Strip(head[1..]) == name && IsValidName(name)
    requires close < |rest| && Find(rest, '}') == close && rest[close + 1..] == ":"
    requires ParseAnnotations(rest[..close]) == Some((typ, None))
    ensures ParseHeader(line) == Some((name, typ, None))
  {
  }

  lemma TypeAnnotation(typ: BlockType, inner: string)
    requires inner == "type = " + TypeName(typ)
    ensures '{' !in inner && '}' !in inner && '\n' !in inner && inner != [] && !IsSpace(inner[0])
  {
    var name := TypeName(typ);
    TypeText(typ);
    NotInEither("type = ", name, '{');
    NotInEither("type = ", name, '}');
    NotInEither("type = ", name, '\n');
    assert inner[0] == 't';
  }

  lemma NotInEither(a: string, b: string, c: char)
    requires c !in a && c !in b
    ensures c !in a + b
  {
  }

  lemma ClosingBrace(inner: string, rest: string)
    requires '}' !in inner && rest == inner + "}:"
    ensures |inner| < |rest| && Find(rest, '}') == |inner| && rest[|inner| + 1..] == ":" && rest[..|inner|] == inner
  {
    assert rest == inner + ['}'] + ":";
    FindAfter(inner, '}', ":");
  }

  lemma HeadName(name: string, head: string)
    requires Trimmed(name) && head == "^" + name
    ensures head != [] && Strip(head[1..]) == name
  {
    assert head[1..] == name;
    StripTrimmed(name);
  }

  lemma HeaderRoundTrip(b: Block, line: string)
    requires IsValidName(b.name) && b.deadlines.None? && line == PrintHeader(b)
    ensures ParseHeader(line) == Some((b.name, b.typ, None)) && Trimmed(line) && '\n' !in line && IsHeader(line)
  {
    var inner := "type = " + TypeName(b.typ);
    HeaderLine(b, inner);
    TypeAnnotation(b.typ, inner);
    AnnotationsRoundTrip(b.typ);
    HeaderText(b.name, inner, line);
    NameIsTrimmed(b.name);
    HeadName(b.name, "^" + b.name);
    ClosingBrace(inner, inner + "}:");
    ParsesHeader(line, "^" + b.name, inner + "}:", |inner|, b.name, b.typ);
  }

  lemma HeaderLine(b: Block, inner: string)
    requires inner == "type = " + TypeName(b.typ) && b.deadlines.None?
    ensures PrintHeader(b) == "^" + b.name + " {" + inner + "}:"
  {
    assert inner + "" == inner;
  }

  // ----- blocks -----

  lemma BlockText(header: string, body: string, rest: seq<string>)
    requires Lines(header) == [header] && Lines(body) == rest
    ensures Lines(header + "\n" + body) == [header] + rest
  {
    LinesConcat(header, body);
  }

  lemma BlockLinesAre(b: Block, lines: seq<string>, defined: Vectors)
    requires IsValidName(b.name) && b.deadlines.None? && GoodOps(b.instructions, defined) && lines == BlockLines(b)
    ensures CleanLines(lines) && Lines(PrintBlock(b)) == lines && IsGroup(lines)
  {
    var header, rest := PrintHeader(b), PrintOps(b.instructions);
    OpsAreClean(b.instructions, defined);
    HeaderRoundTrip(b, header);
    CleanLine(header);
    LinesOfOps(b.instructions);
    BlockText(header, Join(Indented(b.instructions), "\n"), rest);
    HeaderAndBody(header, rest, lines);
  }

  /** A header line and other lines. */
  ghost predicate IsGroup(lines: seq<string>) {
    lines != [] && IsHeader(lines[0]) && forall i :: 1 <= i < |lines| ==> !IsHeader(lines[i])
  }

  lemma HeaderAndBody(header: string, rest: seq<string>, lines: seq<string>)
    requires lines == [header] + rest && CleanLines(rest) && Trimmed(header) && '\n' !in header && IsHeader(header)
    requires forall i :: 0 <= i < |rest| ==> !IsHeader(rest[i])
    ensures CleanLines(lines) && IsGroup(lines)
  {
    assert forall i :: 1 <= i < |lines| ==> lines[i] == rest[i - 1];
  }

  lemma ParsesBlock(lines: seq<string>, name: string, typ: BlockType, ops: seq<Op>, defined: Vectors, after: Vectors)
    requires lines != [] && CleanLines(lines) && ParseHeader(lines[0]) == Some((name, typ, None))
    requires ParseLines(lines[1..], defined) == Some((ops, after))
    ensures ParseBlock(Join(lines, "\n"), defined) == Some((Block(name, typ, ops, None), after))
  {
    LinesOfJoin(lines);
    LinesOfJoin(lines[1..]);
  }

  /** Parsing the text of one block. */
  lemma BlockRoundTrip(b: Block, lines: seq<string>, defined: Vectors)
    requires IsValidName(b.name) && b.deadlines.None? && GoodOps(b.instructions, defined) && lines == BlockLines(b)
    ensures ParseBlock(Join(lines, "\n"), defined) == Some((b, DefineAll(defined, b.instructions)))
  {
    BlockLinesAre(b, lines, defined);
    HeaderRoundTrip(b, lines[0]);
    OpsRoundTrip(b.instructions, defined);
    assert lines[0] == PrintHeader(b) && lines[1..] == PrintOps(b.instructions);
    ParsesBlock(lines, b.name, b.typ, b.instructions, defined, DefineAll(defined, b.instructions));
  }

  // ----- programs -----

  function Flatten(groups: seq<seq<string>>): seq<string> {
    if groups == [] then [] else groups[0] + Flatten(groups[1..])
  }

  function Groups(blocks: seq<Block>): (r: seq<seq<string>>)
    ensures |r| == |blocks| && forall i :: 0 <= i < |blocks| ==> r[i] == BlockLines(blocks[i])
  {
    if blocks == [] then [] else Groups(blocks[..|blocks| - 1]) + [BlockLines(blocks[|blocks| - 1])]
  }

  /** An empty line separates two texts. */
  lemma TwoTexts(text: string, rest: string)
    ensures Lines(text + "\n\n" + rest) == Lines(text) + Lines(rest)
  {
    LinesConcat(text, "\n" + rest);
    OneLine("");
    LinesConcat("", rest);
    assert "" + "\n" + rest == "\n" + rest;
    assert text + "\n\n" + rest == text + "\n" + ("\n" + rest);
    assert [] + Lines(rest) == Lines(rest);
  }

  lemma JoinTexts(texts: seq<string>)
    requires |texts| > 1
    ensures Join(texts, "\n\n") == texts[0] + "\n\n" + Join(texts[1..], "\n\n")
  {
  }

  lemma OneFlat(group: seq<string>)
    ensures Flatten([group]) == group
  {
    assert [group][1..] == [];
    assert group + Flatten([]) == group;
  }

  lemma {:induction false} LinesOfTexts(texts: seq<string>, groups: seq<seq<string>>)
    requires |texts| == |groups| && forall i :: 0 <= i < |texts| ==> Lines(texts[i]) == groups[i]
    ensures Lines(Join(texts, "\n\n")) == Flatten(groups)
  {
    if texts == [] {
      OneLine("");
    } else if |texts| == 1 {
      assert texts == [texts[0]] && groups == [groups[0]];
      OneFlat(groups[0]);
    } else {
      LinesOfTexts(texts[1..], groups[1..]);
      JoinTexts(texts);
      TwoTexts(texts[0], Join(texts[1..], "\n\n"));
    }
  }

  lemma {:induction false} BodyLengthIs(body: seq<string>, rest: seq<string>)
    requires (forall i :: 0 <= i < |body| ==> !IsHeader(body[i])) && (rest == [] || IsHeader(rest[0]))
    ensures BodyLength(body + rest) == |body|
  {
    if body == [] {
      assert body + rest == rest;
    } else {
      assert (body + rest)[0] == body[0] && (body + rest)[1..] == body[1..] + rest;
      BodyLengthIs(body[1..], rest);
    }
  }

  lemma OneGroup(lines: seq<string>, rest: seq<string>)
    requires lines != [] && IsHeader(lines[0]) && (forall i :: 1 <= i < |lines| ==> !IsHeader(lines[i]))
    requires rest == [] || IsHeader(rest[0])
    ensures BlockGroups(lines + rest) == [lines] + BlockGroups(rest)
  {
    var all := lines + rest;
    assert all[0] == lines[0] && all[1..] == lines[1..] + rest;
    BodyLengthIs(lines[1..], rest);
    assert all[..|lines|] == lines && all[|lines|..] == rest;
  }

  lemma {:induction false} GroupsOfFlat(groups: seq<seq<string>>)
    requires forall i :: 0 <= i < |groups| ==> IsGroup(groups[i])
    ensures BlockGroups(Flatten(groups)) == groups
    ensures groups != [] ==> Flatten(groups) != [] && IsHeader(Flatten(groups)[0])
  {
    if groups != [] {
      assert IsGroup(groups[0]);
      GroupsOfFlat(groups[1..]);
      OneGroup(groups[0], Flatten(groups[1..]));
      assert Flatten(groups)[0] == groups[0][0];
      assert [groups[0]] + groups[1..] == groups;
    }
  }

  lemma ParseOneMoreGroup(groups: seq<seq<string>>, defined: Vectors, blocks: seq<Block>, between: Vectors,
                          b: Block, after: Vectors)
    requires groups != [] && ParseGroups(groups[..|groups| - 1], defined) == Some((blocks, between))
    requires ParseBlock(Join(groups[|groups| - 1], "\n"), between) == Some((b, after))
    ensures ParseGroups(groups, defined) == Some((blocks + [b], after))
  {
  }

  lemma GoodBlocksPrefix(blocks: seq<Block>, n: nat)
    requires GoodBlocks(blocks) && n <= |blocks|
    ensures GoodBlocks(blocks[..n])
  {
    forall i | 0 <= i < n
      ensures IsValidName(blocks[..n][i].name) && blocks[..n][i].deadlines.None? && GoodOps(blocks[..n][i].instructions, DefinedBy(blocks[..n][..i]))
    {
      assert blocks[..n][..i] == blocks[..i];
    }
  }

  lemma LastBlockRoundTrip(blocks: seq<Block>, lines: seq<string>)
    requires blocks != [] && GoodBlocks(blocks) && lines == BlockLines(blocks[|blocks| - 1])
    ensures ParseBlock(Join(lines, "\n"), DefinedBy(blocks[..|blocks| - 1])) ==
            Some((blocks[|blocks| - 1], DefinedBy(blocks)))
  {
    BlockRoundTrip(blocks[|blocks| - 1], lines, DefinedBy(blocks[..|blocks| - 1]));
  }

  lemma GroupsFront(blocks: seq<Block>)
    requires blocks != []
    ensures Groups(blocks)[..|blocks| - 1] == Groups(blocks[..|blocks| - 1])
    ensures Groups(blocks)[|blocks| - 1] == BlockLines(blocks[|blocks| - 1])
  {
  }

  lemma {:induction false} GroupsRoundTrip(blocks: seq<Block>)
    requires GoodBlocks(blocks)
    ensures ParseGroups(Groups(blocks), map[]) == Some((blocks, DefinedBy(blocks)))
  {
    if blocks != [] {
      var n := |blocks| - 1;
      var groups := Groups(blocks);
      GoodBlocksPrefix(blocks, n);
      GroupsRoundTrip(blocks[..n]);
      GroupsFront(blocks);
      LastBlockRoundTrip(blocks, groups[n]);
      ParseOneMoreGroup(groups, map[], blocks[..n], DefinedBy(blocks[..n]), blocks[n], DefinedBy(blocks));
      FrontAndLast(blocks);
    }
  }

  lemma BlockIsGroup(blocks: seq<Block>, i: nat, text: string, lines: seq<string>)
    requires GoodBlocks(blocks) && i < |blocks| && text == PrintBlock(blocks[i]) && lines == BlockLines(blocks[i])
    ensures Lines(text) == lines && IsGroup(lines)
  {
    BlockLinesAre(blocks[i], lines, DefinedBy(blocks[..i]));
  }

  // ----- deadlines do not survive -----

  lemma PrintedDeadlinesBrace(b: Block, line: string)
    requires b.deadlines.Some? && line == PrintHeader(b)
    ensures Count(line, '{') >= 2
  {
    var front := "^" + b.name + " ";
    var middle := "type = " + TypeName(b.typ) + ", deadlines: ";
    var back := Join(PrintItems(b.deadlines.value), ", ") + "}" + "}:";
    assert line == front + ['{'] + middle + ['{'] + back;
    CountConcat(front + ['{'] + middle + ['{'], back, '{');
    CountConcat(front + ['{'] + middle, ['{'], '{');
    CountConcat(front + ['{'], middle, '{');
    CountConcat(front, ['{'], '{');
    assert Count(['{'], '{') == 1 by { assert ['{'][1..] == []; }
  }

  /** A printed header is read back exactly if the block has no deadlines: those are printed
      as a dictionary, whose braces the parser refuses. */
  lemma HeaderSurvivesIffNoDeadlines(b: Block)
    requires IsValidName(b.name)
    ensures ParseHeader(PrintHeader(b)) == Some((b.name, b.typ, b.deadlines)) <==> b.deadlines.None?
    ensures b.deadlines.Some? ==> ParseHeader(PrintHeader(b)).None?
  {
    if b.deadlines.None? {
      HeaderRoundTrip(b, PrintHeader(b));
    } else {
      PrintedDeadlinesBrace(b, PrintHeader(b));
    }
  }

  /** Parsing printed host code returns the same blocks, with the same kinds of operations. */
  lemma HostCodeRoundTrip(blocks: seq<Block>)
    requires GoodBlocks(blocks) && blocks != []
    ensures ParseHostCode(SerializeHostCode(blocks)) == Some(blocks)
  {
    var texts, groups := PrintBlocks(blocks), Groups(blocks);
    forall i | 0 <= i < |blocks| ensures Lines(texts[i]) == groups[i] && IsGroup(groups[i]) {
      BlockIsGroup(blocks, i, texts[i], groups[i]);
    }
    LinesOfTexts(texts, groups);
    GroupsOfFlat(groups);
    GroupsRoundTrip(blocks);
  }
}
