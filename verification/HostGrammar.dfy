/** Which texts the parser of host code accepts, and what it reads in them
    (qoala/lang/parse.py:276-452). */
module HostGrammar {
  import opened Tasks
  import opened Strings
  import opened HostLang
  import opened HostParser

  // ----- strings -----

  /** The parts of a split text are free of the separator and make up the text; that leaves
      no choice. */
  lemma {:induction false} SplitJoins(s: string, c: char)
    ensures Join(Split(s, c), [c]) == s
    ensures forall part :: part in Split(s, c) ==> c !in part
  {
    if s != [] {
      SplitJoins(s[1..], c);
      var rest := Split(s[1..], c);
      var parts := Split(s, c);
      if s[0] == c {
        assert parts[1..] == rest;
      } else {
        assert parts[1..] == rest[1..];
        assert rest[0] in rest;
      }
      assert [s[0]] + s[1..] == s;
    }
  }

  lemma {:induction false} SplitCounts(s: string, c: char)
    ensures |Split(s, c)| == Count(s, c) + 1
  {
    if s != [] {
      SplitCounts(s[1..], c);
    }
  }

  lemma {:induction false} NotCounted(s: string, c: char)
    requires Count(s, c) == 0
    ensures c !in s
  {
    if s != [] {
      NotCounted(s[1..], c);
      assert s == [s[0]] + s[1..];
    }
  }

  /** The only place of a character that occurs once. */
  lemma {:induction false} Once(s: string, c: char) returns (a: string, b: string)
    requires Count(s, c) == 1
    ensures s == a + [c] + b && c !in a && c !in b && Split(s, c) == [a, b]
  {
    if s[0] == c {
      a, b := [], s[1..];
      NotCounted(b, c);
      SplitNone(b, c);
      assert s == a + [c] + b;
    } else {
      a, b := Once(s[1..], c);
      assert s == ([s[0]] + a) + [c] + b;
      a := [s[0]] + a;
    }
  }

  ghost predicate OnlySpaces(s: string) {
    forall c :: c in s ==> IsSpace(c)
  }

  lemma {:induction false} LStripDrops(s: string) returns (l: string)
    ensures s == l + LStrip(s) && OnlySpaces(l)
  {
    l := [];
    if s != [] && IsSpace(s[0]) {
      var rest := LStripDrops(s[1..]);
      l := [s[0]] + rest;
    }
  }

  lemma {:induction false} RStripDrops(s: string) returns (r: string)
    ensures s == RStrip(s) + r && OnlySpaces(r)
    ensures RStrip(s) != [] ==> RStrip(s)[0] == s[0] && !IsSpace(RStrip(s)[|RStrip(s)| - 1])
  {
    r := [];
    if s != [] && IsSpace(s[|s| - 1]) {
      var front := RStripDrops(s[..|s| - 1]);
      assert s == s[..|s| - 1] + [s[|s| - 1]];
      r := front + [s[|s| - 1]];
    }
  }

  lemma {:induction false} LStripStart(s: string)
    ensures LStrip(s) != [] ==> !IsSpace(LStrip(s)[0])
  {
    if s != [] && IsSpace(s[0]) {
      LStripStart(s[1..]);
    }
  }

  /** Stripping drops the spaces at both ends, all of them and nothing else. */
  lemma StripDrops(s: string) returns (l: string, r: string)
    ensures s == l + Strip(s) + r && OnlySpaces(l) && OnlySpaces(r)
    ensures Strip(s) == [] || Trimmed(Strip(s))
  {
    l := LStripDrops(s);
    r := RStripDrops(LStrip(s));
    LStripStart(s);
  }

  /** A number is digits, with single underscores between them, and perhaps a sign. */
  lemma IntIff(text: string, n: int)
    ensures ParseInt(text) == Some(n) <==>
              exists digits :: IsNumeral(digits) && IsSigned(Strip(text), digits, n)
  {
    var s := Strip(text);
    if ParseInt(text) == Some(n) {
      var digits := if s[0] == '-' || s[0] == '+' then s[1..] else s;
      assert s == [s[0]] + s[1..];
      assert IsNumeral(digits) && IsSigned(s, digits, n);
    }
    if digits :| IsNumeral(digits) && IsSigned(s, digits, n) {
      assert s[0] == '-' || s[0] == '+' ==> s[1..] == digits;
    }
  }

  ghost predicate IsSigned(s: string, digits: string, n: int) {
    || (s == digits && n == NumeralValue(digits))
    || (s == ['+'] + digits && n == NumeralValue(digits))
    || (s == ['-'] + digits && n == 0 - NumeralValue(digits))
  }

  ghost function WithoutUnderscores(s: string): string {
    if s == [] then []
    else
      var last := s[|s| - 1];
      WithoutUnderscores(s[..|s| - 1]) + if last == '_' then [] else [last]
  }

  /** The underscores do not count. */
  lemma {:induction false} UnderscoresDoNotCount(s: string)
    requires forall c :: c in s ==> IsDigit(c) || c == '_'
    ensures NumeralValue(WithoutUnderscores(s)) == NumeralValue(s)
  {
    if s != [] {
      var front, last := s[..|s| - 1], s[|s| - 1];
      UnderscoresDoNotCount(front);
      if last != '_' {
        var digits := WithoutUnderscores(front) + [last];
        assert digits[..|digits| - 1] == WithoutUnderscores(front);
      } else {
        assert WithoutUnderscores(front) + [] == WithoutUnderscores(front);
      }
    }
  }

  // ----- variables -----

  /** `name[inner]`, with whatever brackets. */
  ghost predicate IsBracketed(text: string, name: string, open: char, inner: string, close: char) {
    text == name + [open] + inner + [close] && IsValidName(name) && open !in inner && close !in inner
  }

  /** A number, or a name. */
  ghost predicate IsSize(text: string, size: Value) {
    match size
    case VInt(n) => ParseInt(text) == Some(n)
    case VStr(s) => s == text && IsValidName(text)
  }

  ghost predicate IsVector(text: string, name: string, size: Value) {
    exists inner :: IsBracketed(text, name, '<', inner, '>') && IsSize(inner, size)
  }

  ghost predicate IsElement(text: string, name: string, index: int) {
    exists inner :: IsBracketed(text, name, '[', inner, ']') && '<' !in inner && ParseInt(inner) == Some(index)
  }

  /** Names separated by semicolons. */
  ghost predicate IsTuple(text: string, names: seq<string>) {
    exists inner :: text == "tuple<" + (inner + ">") && IsInside(inner, names)
  }

  /** What a text stands for as a variable: a tuple, the definition of a vector where a result
      is expected, a vector that has been defined, one of its elements, or else a single
      variable. */
  ghost predicate IsVar(text: string, isResult: bool, defined: Vectors, v: Var) {
    if StartsWith(text, "tuple") then v.TupleVar? && IsTuple(text, v.names)
    else
      match v
      case TupleVar(_) => false
      case VectorVar(name, size) =>
        || (isResult && IsVector(text, name, size))
        || (text == name && IsValidName(name) && name in defined && defined[name] == size)
      case Element(name, index) => name in defined && IsElement(text, name, index)
      case Singleton(name) => text == name && IsValidName(name) && name !in defined
  }

  lemma Unbracket(text: string, open: char, close: char) returns (name: string, inner: string)
    requires open != close && Count(text, open) == 1 && Count(text, close) == 1 && EndsWith(text, [close])
    ensures text == name + [open] + inner + [close] && Split(text, open) == [name, inner + [close]]
    ensures open !in name && open !in inner && close !in name && close !in inner && DropLast(inner + [close]) == inner
  {
    var rest;
    name, rest := Once(text, open);
    assert text[|text| - 1] == close;
    var bare := name + [open] + [];
    assert bare[|bare| - 1] == open;
    inner := rest[..|rest| - 1];
    assert rest == inner + [close];
    assert text == (name + [open] + inner) + [close] + [];
    OnceBeforeLast(name + [open] + inner, close);
  }

  lemma OnceBeforeLast(s: string, c: char)
    requires Count(s + [c] + [], c) == 1
    ensures c !in s
  {
    CountConcat(s, [c], c);
    assert s + [c] + [] == s + [c];
    assert Count([c], c) == 1 by { assert [c][1..] == []; }
    NotCounted(s, c);
  }

  lemma SizeIff(text: string, size: Value)
    ensures ParseSize(text) == Some(size) <==> IsSize(text, size)
  {
    if IsValidName(text) {
      NameIsNoNumber(text);
    }
  }

  lemma VectorIff(text: string, name: string, size: Value)
    ensures ParseVector(text) == Some(VectorVar(name, size)) <==> IsVector(text, name, size)
  {
    if ParseVector(text) == Some(VectorVar(name, size)) {
      var n, inner := Unbracket(text, '<', '>');
      SizeIff(inner, size);
      assert IsBracketed(text, name, '<', inner, '>');
    }
    if inner :| IsBracketed(text, name, '<', inner, '>') && IsSize(inner, size) {
      NameIsTrimmed(name);
      BracketText(name, '<', inner, '>');
      SizeIff(inner, size);
    }
  }

  lemma ElementIff(text: string, name: string, index: int, defined: Vectors)
    requires '<' !in text
    ensures ParseElement(text, defined) == Some(Element(name, index)) <==> name in defined && IsElement(text, name, index)
  {
    if ParseElement(text, defined) == Some(Element(name, index)) {
      var n, inner := Unbracket(text, '[', ']');
      assert IsBracketed(text, name, '[', inner, ']');
    }
    if name in defined {
      if inner :| IsBracketed(text, name, '[', inner, ']') && '<' !in inner && ParseInt(inner) == Some(index) {
        NameIsTrimmed(name);
        BracketText(name, '[', inner, ']');
      }
    }
  }

  lemma TupleIff(text: string, names: seq<string>)
    requires StartsWith(text, "tuple")
    ensures ParseTuple(text) == Some(TupleVar(names)) <==> IsTuple(text, names)
  {
    if ParseTuple(text) == Some(TupleVar(names)) {
      var inner := Untuple(text);
      TupleBrackets(inner, text);
      assert IsInside(inner, names);
    }
    if inner :| text == "tuple<" + (inner + ">") && IsInside(inner, names) {
      TupleBrackets(inner, text);
    }
  }

  lemma Untuple(text: string) returns (inner: string)
    requires StartsWith(text, "tuple") && |text| > 5 && text[5] == '<' && EndsWith(text, ">")
    requires Count(text, '<') <= 1 && Count(text, '>') <= 1
    ensures text == "tuple<" + (inner + ">") && '<' !in inner && '>' !in inner
  {
    assert text[|text| - 1] == '>';
    inner := text[6..|text| - 1];
    assert text == "tuple<" + (inner + ">") by {
      assert text[..5] == "tuple" && text[6..] == inner + ">";
      assert text == text[..5] + [text[5]] + text[6..];
    }
    assert text == ("tuple<" + inner) + ['>'];
    CountConcat("tuple<" + inner, ['>'], '>');
    CountConcat("tuple<", inner, '>');
    assert Count(['>'], '>') == 1 by { assert ['>'][1..] == []; }
    NotCounted(inner, '>');
    assert text == ("tuple" + ['<']) + (inner + ">");
    CountConcat("tuple" + ['<'], inner + ">", '<');
    CountConcat("tuple", ['<'], '<');
    CountConcat(inner, ">", '<');
    assert Count(['<'], '<') == 1 by { assert ['<'][1..] == []; }
    NotCounted(inner, '<');
  }

  lemma NameHasNoBracket(text: string)
    requires IsValidName(text)
    ensures '<' !in text && '[' !in text
  {
    NameIsTrimmed(text);
  }

  /** `_parse_var`: a text is read as a variable exactly if it stands for it. */
  lemma VarIff(text: string, isResult: bool, defined: Vectors, v: Var)
    ensures ParseVar(text, isResult, defined) == Some(v) <==> IsVar(text, isResult, defined, v)
  {
    if StartsWith(text, "tuple") {
      if v.TupleVar? {
        TupleIff(text, v.names);
      }
    } else if '<' in text {
      VectorTextIff(text, isResult, defined, v);
    } else if '[' in text {
      ElementTextIff(text, isResult, defined, v);
    } else {
      NameIff(text, isResult, defined, v);
    }
  }

  lemma VectorTextIff(text: string, isResult: bool, defined: Vectors, v: Var)
    requires !StartsWith(text, "tuple") && '<' in text
    ensures ParseVar(text, isResult, defined) == Some(v) <==> IsVar(text, isResult, defined, v)
  {
    if IsValidName(text) {
      NameHasNoBracket(text);
    }
    match v
    case VectorVar(name, size) => VectorIff(text, name, size);
    case Element(name, index) =>
      if inner :| IsBracketed(text, name, '[', inner, ']') && '<' !in inner && ParseInt(inner) == Some(index) {
        NameHasNoBracket(name);
      }
    case _ =>
  }

  lemma ElementTextIff(text: string, isResult: bool, defined: Vectors, v: Var)
    requires !StartsWith(text, "tuple") && '<' !in text && '[' in text
    ensures ParseVar(text, isResult, defined) == Some(v) <==> IsVar(text, isResult, defined, v)
  {
    if IsValidName(text) {
      NameHasNoBracket(text);
    }
    match v
    case Element(name, index) => ElementIff(text, name, index, defined);
    case VectorVar(name, size) => NoVectorWithout(text, name, size);
    case _ =>
  }

  lemma BracketIsThere(text: string, name: string, open: char, inner: string, close: char)
    requires IsBracketed(text, name, open, inner, close)
    ensures open in text
  {
    assert text[|name|] == open;
  }

  lemma NoVectorWithout(text: string, name: string, size: Value)
    requires '<' !in text
    ensures !IsVector(text, name, size)
  {
    if inner :| IsBracketed(text, name, '<', inner, '>') {
      BracketIsThere(text, name, '<', inner, '>');
    }
  }

  lemma NoElementWithout(text: string, name: string, index: int)
    requires '[' !in text
    ensures !IsElement(text, name, index)
  {
    if inner :| IsBracketed(text, name, '[', inner, ']') {
      BracketIsThere(text, name, '[', inner, ']');
    }
  }

  lemma NameIff(text: string, isResult: bool, defined: Vectors, v: Var)
    requires !StartsWith(text, "tuple") && '<' !in text && '[' !in text
    ensures ParseVar(text, isResult, defined) == Some(v) <==> IsVar(text, isResult, defined, v)
  {
    match v
    case VectorVar(name, size) => NoVectorWithout(text, name, size);
    case Element(name, index) => NoElementWithout(text, name, index);
    case _ =>
  }

  // ----- instructions -----

  /** The text without its ends of spaces. */
  ghost predicate IsWhole(line: string, sep: char, x: string) {
    sep !in line && x == Strip(line)
  }

  /** Two texts around the only separator. */
  ghost predicate AreSides(line: string, sep: char, x: string, y: string) {
    exists a, b :: line == a + [sep] + b && sep !in a && sep !in b && x == Strip(a) && y == Strip(b)
  }

  /** What the parts of a line are. */
  ghost predicate IsCut(line: string, sep: char, parts: seq<string>) {
    || (|parts| == 1 && IsWhole(line, sep, parts[0]))
    || (|parts| == 2 && AreSides(line, sep, parts[0], parts[1]))
  }

  lemma StripTwo(a: string, b: string)
    ensures StripAll([a, b]) == [Strip(a), Strip(b)] && StripAll([a]) == [Strip(a)]
  {
    assert [a, b][1..] == [b] && [b][1..] == [] && [a][1..] == [];
  }

  lemma CutIff(line: string, sep: char, parts: seq<string>)
    ensures parts == StripAll(Split(line, sep)) && |parts| <= 2 <==> IsCut(line, sep, parts)
  {
    SplitCounts(line, sep);
    if |Split(line, sep)| == 1 {
      NotCounted(line, sep);
      SplitNone(line, sep);
      StripTwo(line, line);
    } else if |Split(line, sep)| == 2 {
      var a, b := Once(line, sep);
      StripTwo(a, b);
    }
    if IsCut(line, sep, parts) {
      CutIsSplit(line, sep, parts);
    }
  }

  lemma CutIsSplit(line: string, sep: char, parts: seq<string>)
    requires IsCut(line, sep, parts)
    ensures parts == StripAll(Split(line, sep))
  {
    if |parts| == 1 {
      SplitNone(line, sep);
      StripTwo(line, line);
    } else {
      var a, b :| line == a + [sep] + b && sep !in a && sep !in b && parts[0] == Strip(a) && parts[1] == Strip(b);
      SplitAt(a, sep, b);
      SplitNone(b, sep);
      StripTwo(a, b);
    }
  }

  lemma {:induction false} LStripAppend(s: string, c: char)
    requires !IsSpace(c)
    ensures LStrip(s + [c]) == LStrip(s) + [c]
  {
    if s == [] {
      assert s + [c] == [c];
    } else {
      assert (s + [c])[1..] == s[1..] + [c];
      LStripAppend(s[1..], c);
    }
  }

  lemma StripAppend(s: string, c: char)
    requires !IsSpace(c)
    ensures Strip(s + [c]) == LStrip(s) + [c]
  {
    LStripAppend(s, c);
  }

  lemma {:induction false} RStripEmpty(s: string)
    ensures RStrip(s) == [] <==> forall x :: x in s ==> IsSpace(x)
  {
    if s != [] {
      var front, last := s[..|s| - 1], s[|s| - 1];
      assert s == front + [last];
      assert last in s;
      if IsSpace(last) {
        RStripEmpty(front);
        assert forall x :: x in s <==> x in front || x == last;
      }
    }
  }

  lemma {:induction false} LStripEmpty(s: string)
    ensures LStrip(s) == [] || !IsSpace(LStrip(s)[0])
    ensures LStrip(s) == [] <==> Strip(s) == []
  {
    if s != [] && IsSpace(s[0]) {
      LStripEmpty(s[1..]);
    } else {
      RStripEmpty(s);
      assert s != [] ==> s[0] in s;
    }
  }

  lemma {:induction false} LStripSplit(s: string, c: char)
    requires !IsSpace(c)
    ensures StripAll(Split(LStrip(s), c)) == StripAll(Split(s, c))
  {
    if s != [] && IsSpace(s[0]) {
      LStripSplit(s[1..], c);
      var r := Split(s[1..], c);
      assert Split(s, c) == [[s[0]] + r[0]] + r[1..];
      assert ([s[0]] + r[0])[1..] == r[0];
      assert Strip([s[0]] + r[0]) == Strip(r[0]);
    }
  }

  lemma {:induction false} LStripWithin(s: string, c: char)
    requires c !in s
    ensures c !in LStrip(s)
  {
    if s != [] && IsSpace(s[0]) {
      assert forall x :: x in s[1..] ==> x in s;
      LStripWithin(s[1..], c);
    }
  }

  lemma DropOneParen(s: string)
    requires ')' !in s
    ensures DropParens(s + [')']) == s
  {
    assert (s + [')'])[..|s|] == s;
    assert s != [] ==> s[|s| - 1] in s;
  }

  /** Texts between commas; only spaces are no argument. */
  ghost predicate AreArguments(inner: string, args: seq<string>) {
    args == if Strip(inner) == [] then [] else StripAll(Split(inner, ','))
  }

  /** `name(arguments)`. */
  ghost predicate IsCall(text: string, op: string, args: seq<string>) {
    exists name, inner :: IsCallOf(text, name, inner, op, args)
  }

  ghost predicate IsCallOf(text: string, name: string, inner: string, op: string, args: seq<string>) {
    && text == name + ['('] + inner + [')'] && name != []
    && '(' !in name && ')' !in name && '(' !in inner && ')' !in inner
    && op == Strip(name) && AreArguments(inner, args)
  }

  lemma CallParts(name: string, inner: string)
    requires '(' !in name && '(' !in inner && ')' !in inner
    ensures StripAll([name, inner + [')']]) == [Strip(name), LStrip(inner) + [')']]
    ensures DropParens(LStrip(inner) + [')']) == LStrip(inner)
    ensures AreArguments(inner, if LStrip(inner) == [] then [] else StripAll(Split(LStrip(inner), ',')))
  {
    StripTwo(name, inner + [')']);
    StripAppend(inner, ')');
    LStripWithin(inner, ')');
    DropOneParen(LStrip(inner));
    LStripEmpty(inner);
    LStripSplit(inner, ',');
  }

  lemma CallReads(text: string, name: string, inner: string, op: string, args: seq<string>)
    requires IsCallOf(text, name, inner, op, args)
    ensures ParseCall(text) == Some((op, args))
  {
    BracketText(name, '(', inner, ')');
    CallParts(name, inner);
  }

  lemma ReadCall(text: string, op: string, args: seq<string>)
    requires ParseCall(text) == Some((op, args))
    ensures IsCall(text, op, args)
  {
    var name, inner := Unbracket(text, '(', ')');
    CallParts(name, inner);
    assert name == [] ==> StartsWith(text, "(");
    assert IsCallOf(text, name, inner, op, args);
  }

  lemma CallIff(text: string, op: string, args: seq<string>)
    ensures ParseCall(text) == Some((op, args)) <==> IsCall(text, op, args)
  {
    if ParseCall(text) == Some((op, args)) {
      ReadCall(text, op, args);
    }
    if name, inner :| IsCallOf(text, name, inner, op, args) {
      CallReads(text, name, inner, op, args);
    }
  }

  /** The texts stand for the variables, none of them a result. */
  ghost predicate AreVars(texts: seq<string>, defined: Vectors, vars: seq<Var>) {
    |vars| == |texts| && forall i :: 0 <= i < |texts| ==> IsVar(texts[i], false, defined, vars[i])
  }

  lemma {:induction false} VarsIff(texts: seq<string>, defined: Vectors, vars: seq<Var>)
    ensures ParseVars(texts, defined) == Some(vars) <==> AreVars(texts, defined, vars)
  {
    if texts != [] && vars != [] {
      VarIff(texts[0], false, defined, vars[0]);
      VarsIff(texts[1..], defined, vars[1..]);
      assert vars == [vars[0]] + vars[1..];
    } else if texts == [] && vars == [] {
    }
  }

  /** The texts of an instruction. */
  datatype Pieces = Pieces(result: Option<string>, op: string, args: seq<string>, attr: Option<string>)

  /** `result = right`, or just `right`. */
  ghost predicate IsRightOf(line: string, result: Option<string>, right: string) {
    if result.Some? then AreSides(line, '=', result.value, right) else IsWhole(line, '=', right)
  }

  /** `call : attribute`, or just `call`. */
  ghost predicate HasAttr(right: string, call: string, attr: Option<string>) {
    if attr.Some? then AreSides(right, ':', call, attr.value) else IsWhole(right, ':', call)
  }

  ghost predicate IsInstruction(line: string, p: Pieces) {
    exists right, call :: IsRightOf(line, p.result, right) && HasAttr(right, call, p.attr) && IsCall(call, p.op, p.args)
  }

  /** A number if it reads as one, and else the text itself. */
  ghost predicate IsAttr(text: Option<string>, attr: Option<Value>) {
    if text.None? then attr.None?
    else
      && attr.Some?
      && match attr.value
         case VInt(n) => ParseInt(text.value) == Some(n)
         case VStr(s) => s == text.value && ParseInt(s).None?
  }

  /** The operation that the texts of the right side make up, given its result. */
  ghost predicate IsOperation(p: Pieces, result: Option<Var>, defined: Vectors, op: Op) {
    && op.result == result && FindKind(ALL_KINDS, p.op) == Some(op.kind) && IsAttr(p.attr, op.attr)
    && (if IsRoutineCall(op.kind) && p.args == [] then op.args == [TupleVar([])] else AreVars(p.args, defined, op.args))
    && ResultFits(op.kind, result) && ArgumentsFit(op.kind, op.args) && AttributeFits(op.kind, op.attr)
  }

  lemma {:induction false} RStripTwice(s: string)
    ensures RStrip(RStrip(s)) == RStrip(s)
    ensures s != [] && !IsSpace(s[0]) ==> RStrip(s) != [] && RStrip(s)[0] == s[0]
  {
    if s != [] && IsSpace(s[|s| - 1]) {
      RStripTwice(s[..|s| - 1]);
    }
  }

  lemma StripTwice(s: string)
    ensures Strip(Strip(s)) == Strip(s)
  {
    LStripEmpty(s);
    RStripTwice(LStrip(s));
  }

  lemma SidesAreStripped(line: string, sep: char, x: string, y: string)
    requires AreSides(line, sep, x, y)
    ensures Strip(x) == x && Strip(y) == y
  {
    var a, b :| line == a + [sep] + b && sep !in a && sep !in b && x == Strip(a) && y == Strip(b);
    StripTwice(a);
    StripTwice(b);
  }

  lemma AttrIff(text: string, attr: Value)
    requires Strip(text) == text
    ensures ParseAttr(text) == attr <==> IsAttr(Some(text), Some(attr))
  {
  }

  lemma ConstructIff(kind: OpKind, result: Option<Var>, args: seq<Var>, attr: Option<Value>, op: Op)
    ensures FromGenericArgs(kind, result, args, attr) == Some(op) <==>
              && op.kind == kind && op.result == result && op.attr == attr
              && op.args == (if IsRoutineCall(kind) && args == [] then [TupleVar([])] else args)
              && ResultFits(kind, result) && ArgumentsFit(kind, op.args) && AttributeFits(kind, attr)
  {
    ConstructedIffFits(kind, result, args, attr);
  }

  lemma ArgsIff(texts: seq<string>, kind: OpKind, defined: Vectors, args: seq<Var>)
    ensures (if IsRoutineCall(kind) && texts == [] then args == [TupleVar([])] else AreVars(texts, defined, args)) <==>
              var read := ParseVars(texts, defined);
              read.Some? && args == if IsRoutineCall(kind) && read.value == [] then [TupleVar([])] else read.value
  {
    VarsIff(texts, defined, args);
    var read := ParseVars(texts, defined);
    if read.Some? {
      VarsIff(texts, defined, read.value);
    }
  }

  /** What follows from the texts of the right side. */
  lemma PiecesIff(p: Pieces, result: Option<Var>, defined: Vectors, op: Op, args: Option<seq<Var>>, attr: Option<Value>)
    requires args == ParseVars(p.args, defined) && IsAttr(p.attr, attr)
    ensures var kind := FindKind(ALL_KINDS, p.op);
            (args.Some? && kind.Some? && FromGenericArgs(kind.value, result, args.value, attr) == Some(op)) <==>
              IsOperation(p, result, defined, op)
  {
    var kind := FindKind(ALL_KINDS, p.op);
    ArgsIff(p.args, op.kind, defined, op.args);
    if kind.Some? && args.Some? {
      ConstructIff(kind.value, result, args.value, attr, op);
    }
  }

  lemma CutOfAttr(right: string, call: string, attr: Option<string>)
    requires HasAttr(right, call, attr)
    ensures StripAll(Split(right, ':')) == if attr.Some? then [call, attr.value] else [call]
    ensures attr.Some? ==> Strip(call) == call && Strip(attr.value) == attr.value
  {
    var parts := if attr.Some? then [call, attr.value] else [call];
    CutIff(right, ':', parts);
    if attr.Some? {
      SidesAreStripped(right, ':', call, attr.value);
    }
  }

  lemma RightComputes(right: string, call: string, p: Pieces, result: Option<Var>, defined: Vectors)
    requires HasAttr(right, call, p.attr) && ParseCall(call) == Some((p.op, p.args))
    ensures var args, kind := ParseVars(p.args, defined), FindKind(ALL_KINDS, p.op);
            var attr := if p.attr.Some? then Some(ParseAttr(p.attr.value)) else None;
            ParseRight(right, result, defined) ==
            if args.None? || kind.None? then None else FromGenericArgs(kind.value, result, args.value, attr)
  {
    CutOfAttr(right, call, p.attr);
  }

  lemma AttrIs(right: string, call: string, p: Pieces, attr: Option<Value>)
    requires HasAttr(right, call, p.attr) && IsAttr(p.attr, attr)
    ensures attr == if p.attr.Some? then Some(ParseAttr(p.attr.value)) else None
  {
    if p.attr.Some? {
      CutOfAttr(right, call, p.attr);
      AttrIff(p.attr.value, attr.value);
    }
  }

  lemma ReadsRight(right: string, call: string, p: Pieces, result: Option<Var>, defined: Vectors, op: Op)
    requires HasAttr(right, call, p.attr) && IsCall(call, p.op, p.args) && IsOperation(p, result, defined, op)
    ensures ParseRight(right, result, defined) == Some(op)
  {
    CallIff(call, p.op, p.args);
    RightComputes(right, call, p, result, defined);
    AttrIs(right, call, p, op.attr);
    PiecesIff(p, result, defined, op, ParseVars(p.args, defined), op.attr);
  }

  lemma PartsOfRight(right: string) returns (call: string, attr: Option<string>)
    requires |StripAll(Split(right, ':'))| <= 2
    ensures HasAttr(right, call, attr)
  {
    var parts := StripAll(Split(right, ':'));
    CutIff(right, ':', parts);
    call, attr := parts[0], if |parts| == 2 then Some(parts[1]) else None;
  }

  lemma RightIsRead(right: string, left: Option<string>, result: Option<Var>, defined: Vectors, op: Op)
    returns (p: Pieces, call: string)
    requires ParseRight(right, result, defined) == Some(op)
    ensures p.result == left && HasAttr(right, call, p.attr) && IsCall(call, p.op, p.args)
    ensures IsOperation(p, result, defined, op)
  {
    var attr;
    call, attr := PartsOfRight(right);
    CutOfAttr(right, call, attr);
    var texts := ParseCall(call).value;
    p := Pieces(left, texts.0, texts.1, attr);
    CallIff(call, p.op, p.args);
    var value := if attr.Some? then Some(ParseAttr(attr.value)) else None;
    if attr.Some? {
      AttrIff(attr.value, value.value);
    }
    PiecesIff(p, result, defined, op, ParseVars(p.args, defined), value);
  }

  /** The vectors that are defined once the result is known. */
  ghost function WithVector(defined: Vectors, result: Option<Var>): Vectors {
    if result.Some? && result.value.VectorVar? then defined[result.value.name := result.value.size] else defined
  }

  /** The result that the text to the left of the assignment stands for. */
  ghost predicate IsResult(text: Option<string>, defined: Vectors, result: Option<Var>) {
    if text.None? then result.None? else result.Some? && IsVar(text.value, true, defined, result.value)
  }

  /** A line with these texts is this operation, and defines its vector. */
  ghost predicate Means(line: string, p: Pieces, defined: Vectors, op: Op, defined': Vectors) {
    && IsInstruction(line, p) && IsResult(p.result, defined, op.result)
    && defined' == WithVector(defined, op.result) && IsOperation(p, op.result, defined', op)
  }

  lemma PartsOfLine(line: string) returns (result: Option<string>, right: string)
    requires |StripAll(Split(line, '='))| <= 2
    ensures IsRightOf(line, result, right)
    ensures StripAll(Split(line, '=')) == if result.Some? then [result.value, right] else [right]
  {
    var parts := StripAll(Split(line, '='));
    CutIff(line, '=', parts);
    result, right := if |parts| == 2 then Some(parts[0]) else None, parts[|parts| - 1];
  }

  lemma LineComputes(line: string, left: Option<string>, right: string, defined: Vectors, result: Option<Var>)
    requires IsRightOf(line, left, right) && IsResult(left, defined, result)
    ensures var op := ParseRight(right, result, WithVector(defined, result));
            ParseLine(line, defined) == if op.None? then None else Some((op.value, WithVector(defined, result)))
  {
    CutIff(line, '=', if left.Some? then [left.value, right] else [right]);
    if left.Some? {
      VarIff(left.value, true, defined, result.value);
    }
  }

  lemma ReadsLine(line: string, p: Pieces, right: string, call: string, defined: Vectors, op: Op, defined': Vectors)
    requires IsRightOf(line, p.result, right) && HasAttr(right, call, p.attr) && IsCall(call, p.op, p.args)
    requires IsResult(p.result, defined, op.result) && defined' == WithVector(defined, op.result)
    requires IsOperation(p, op.result, defined', op)
    ensures ParseLine(line, defined) == Some((op, defined'))
  {
    LineComputes(line, p.result, right, defined, op.result);
    ReadsRight(right, call, p, op.result, defined', op);
  }

  lemma ResultIsRead(line: string, left: Option<string>, right: string, defined: Vectors)
    requires StripAll(Split(line, '=')) == if left.Some? then [left.value, right] else [right]
    requires ParseLine(line, defined).Some? && left.Some?
    ensures ParseVar(left.value, true, defined).Some?
  {
  }

  lemma LeftIsRead(line: string, defined: Vectors, op: Op, defined': Vectors)
    returns (left: Option<string>, right: string, result: Option<Var>)
    requires ParseLine(line, defined) == Some((op, defined'))
    ensures IsRightOf(line, left, right) && IsResult(left, defined, result)
    ensures defined' == WithVector(defined, result) && ParseRight(right, result, defined') == Some(op)
  {
    left, right := PartsOfLine(line);
    result := None;
    if left.Some? {
      ResultIsRead(line, left, right, defined);
      result := ParseVar(left.value, true, defined);
      VarIff(left.value, true, defined, result.value);
    }
    LineComputes(line, left, right, defined, result);
  }

  lemma Assemble(line: string, p: Pieces, right: string, call: string, defined: Vectors, op: Op, defined': Vectors)
    requires IsRightOf(line, p.result, right) && HasAttr(right, call, p.attr) && IsCall(call, p.op, p.args)
    requires IsResult(p.result, defined, op.result) && defined' == WithVector(defined, op.result)
    requires IsOperation(p, op.result, defined', op)
    ensures Means(line, p, defined, op, defined')
  {
  }

  lemma LineIsRead(line: string, defined: Vectors, op: Op, defined': Vectors) returns (p: Pieces)
    requires ParseLine(line, defined) == Some((op, defined'))
    ensures Means(line, p, defined, op, defined')
  {
    var left, right, result := LeftIsRead(line, defined, op, defined');
    var call;
    p, call := RightIsRead(right, left, result, defined', op);
    Assemble(line, p, right, call, defined, op, defined');
  }

  /** `_parse_lhr`: a line is read as an operation exactly if it has the form
      `result = name(arguments) : attribute`, with the result and the attribute left out or
      there, the texts stand for variables, and they fit the operation of that name. */
  lemma LineIff(line: string, defined: Vectors, op: Op, defined': Vectors)
    ensures ParseLine(line, defined) == Some((op, defined')) <==> exists p :: Means(line, p, defined, op, defined')
  {
    if ParseLine(line, defined) == Some((op, defined')) {
      var p := LineIsRead(line, defined, op, defined');
    }
    if p :| Means(line, p, defined, op, defined') {
      var right, call :| IsRightOf(line, p.result, right) && HasAttr(right, call, p.attr) && IsCall(call, p.op, p.args);
      ReadsLine(line, p, right, call, defined, op, defined');
    }
  }
}
