/** Which headers, blocks and programs the parser of host code accepts
    (qoala/lang/parse.py:478-622). */
module BlockGrammar {
  import opened Tasks
  import opened Strings
  import opened HostLang
  import opened HostParser
  import opened HostRoundTrip
  import opened HostGrammar

  // ----- headers -----

  ghost predicate IsTypeText(text: string, typ: BlockType) {
    exists value :: AreSides(text, '=', "type", value) && Upper(LastTwo(value)) == TypeName(typ)
  }

  lemma TypeFound(name: string, typ: BlockType)
    ensures FindType(name) == Some(typ) <==> name == TypeName(typ)
  {
  }

  lemma TypeIff(text: string, typ: BlockType)
    ensures ParseType(text) == Some(typ) <==> IsTypeText(text, typ)
  {
    if ParseType(text) == Some(typ) {
      var parts := StripAll(Split(text, '='));
      SplitCounts(text, '=');
      CutIff(text, '=', parts);
      TypeFound(Upper(LastTwo(parts[1])), typ);
      assert AreSides(text, '=', "type", parts[1]);
    }
    if value :| AreSides(text, '=', "type", value) && Upper(LastTwo(value)) == TypeName(typ) {
      CutIff(text, '=', ["type", value]);
      SplitCounts(text, '=');
      TypeFound(Upper(LastTwo(value)), typ);
    }
  }

  /** `pre[item]post`, where neither bracket comes earlier. */
  ghost predicate HasItem(text: string, item: string) {
    exists pre, post ::
      text == pre + ['['] + item + [']'] + post && '[' !in pre && ']' !in pre && ']' !in item
  }

  /** `name : number` between brackets. */
  ghost predicate IsDeadlineText(text: string, deadline: (string, int)) {
    exists item, number ::
      HasItem(text, item) && AreSides(item, ':', deadline.0, number) && ParseInt(number) == Some(deadline.1)
  }

  lemma {:induction false} FindIsFirst(s: string, c: char)
    ensures Find(s, c) < 0 ==> c !in s
    ensures Find(s, c) >= 0 ==> c !in s[..Find(s, c)]
  {
    if s != [] && s[0] != c {
      FindIsFirst(s[1..], c);
      var k := Find(s, c);
      if k >= 0 {
        assert s[..k] == [s[0]] + s[1..][..k - 1];
      } else {
        assert s == [s[0]] + s[1..];
      }
    }
  }

  lemma {:induction false} FindAt(a: string, c: char, b: string)
    requires c !in a
    ensures Find(a + [c] + b, c) == |a|
  {
    var s := a + [c] + b;
    if a != [] {
      assert a[0] in a;
      assert s[0] == a[0] && s[1..] == a[1..] + [c] + b;
      FindAt(a[1..], c, b);
    }
  }

  lemma SliceBetween(pre: string, item: string, post: string, text: string)
    requires text == pre + ['['] + item + [']'] + post
    ensures text[|pre| + 1..|pre| + 1 + |item|] == item
  {
  }

  lemma ClosesAt(pre: string, item: string, post: string, text: string)
    requires text == pre + ['['] + item + [']'] + post && ']' !in pre && ']' !in item
    ensures Find(text, ']') == |pre| + 1 + |item|
  {
    assert text == (pre + ['['] + item) + [']'] + post;
    FindAt(pre + ['['] + item, ']', post);
  }

  lemma ItemIsBracketed(text: string, pre: string, item: string, post: string)
    requires text == pre + ['['] + item + [']'] + post && '[' !in pre && ']' !in pre && ']' !in item
    ensures Bracketed(text) == Some(item)
  {
    var rest := item + [']'] + post;
    assert text == pre + ['['] + rest;
    FindAt(pre, '[', rest);
    ClosesAt(pre, item, post, text);
    SliceBetween(pre, item, post, text);
  }

  lemma BracketedHasItem(text: string, item: string)
    requires Bracketed(text) == Some(item) && item != []
    ensures HasItem(text, item)
  {
    var open, close := Find(text, '['), Find(text, ']');
    FindIsFirst(text, '[');
    FindIsFirst(text, ']');
    var pre, post := text[..open], text[close + 1..];
    assert text == pre + ['['] + item + [']'] + post;
    assert text[..close] == pre + ['['] + item;
  }

  lemma DeadlineIff(text: string, deadline: (string, int))
    ensures ParseDeadline(text) == Some(deadline) <==> IsDeadlineText(text, deadline)
  {
    if ParseDeadline(text) == Some(deadline) {
      var item := Bracketed(text).value;
      var sides := StripAll(Split(item, ':'));
      CutIff(item, ':', sides);
      assert item != [];
      BracketedHasItem(text, item);
      assert AreSides(item, ':', deadline.0, sides[1]);
    }
    if item, number :| HasItem(text, item) && AreSides(item, ':', deadline.0, number) && ParseInt(number) == Some(deadline.1) {
      var pre, post :| text == pre + ['['] + item + [']'] + post && '[' !in pre && ']' !in pre && ']' !in item;
      ItemIsBracketed(text, pre, item, post);
      CutIff(item, ':', [deadline.0, number]);
    }
  }

  /** Annotations between commas: the type, and a deadline if there is a second one. It starts
      after twelve characters, which is where `deadlines = ` ends. */
  ghost predicate AreAnnotations(text: string, typ: BlockType, deadlines: BlockDeadlines) {
    var parts := Split(text, ',');
    && IsTypeText(parts[0], typ)
    && if |parts| == 1 then deadlines.None?
       else
         && deadlines.Some? && |deadlines.value| == 1
         && IsDeadlineText(DropFirst(Strip(parts[1]), 12), deadlines.value[0])
  }

  lemma AnnotationsIff(text: string, typ: BlockType, deadlines: BlockDeadlines)
    ensures ParseAnnotations(text) == Some((typ, deadlines)) <==> AreAnnotations(text, typ, deadlines)
  {
    var parts := Split(text, ',');
    TypeIff(parts[0], typ);
    if |parts| > 1 {
      var rest := DropFirst(Strip(parts[1]), 12);
      if deadlines.Some? && |deadlines.value| == 1 {
        DeadlineIff(rest, deadlines.value[0]);
        assert deadlines.value == [deadlines.value[0]];
      }
    }
  }

  lemma {:induction false} LStripFirstPart(s: string, c: char)
    requires !IsSpace(c)
    ensures Split(LStrip(s), c) == [LStrip(Split(s, c)[0])] + Split(s, c)[1..]
  {
    if s != [] && IsSpace(s[0]) {
      LStripFirstPart(s[1..], c);
      var r := Split(s[1..], c);
      var parts := Split(s, c);
      assert parts == [[s[0]] + r[0]] + r[1..];
      assert parts[0][1..] == r[0] && parts[1..] == r[1..];
    } else {
      var parts := Split(s, c);
      FirstPartStart(s, c);
      assert parts == [parts[0]] + parts[1..];
    }
  }

  lemma FirstPartStart(s: string, c: char)
    requires !IsSpace(c) && (s == [] || !IsSpace(s[0]))
    ensures LStrip(Split(s, c)[0]) == Split(s, c)[0]
  {
  }

  lemma StrippedSides(s: string, sep: char, x: string, y: string)
    requires !IsSpace(sep)
    ensures AreSides(LStrip(s), sep, x, y) <==> AreSides(s, sep, x, y)
  {
    LStripSplit(s, sep);
    CutIff(s, sep, [x, y]);
    CutIff(LStrip(s), sep, [x, y]);
    TwoPartsOnly(s, sep, x, y);
    TwoPartsOnly(LStrip(s), sep, x, y);
  }

  lemma TwoPartsOnly(s: string, sep: char, x: string, y: string)
    ensures IsCut(s, sep, [x, y]) <==> AreSides(s, sep, x, y)
  {
  }

  lemma StrippedType(text: string, typ: BlockType)
    ensures IsTypeText(LStrip(text), typ) <==> IsTypeText(text, typ)
  {
    forall value ensures AreSides(LStrip(text), '=', "type", value) <==> AreSides(text, '=', "type", value) {
      StrippedSides(text, '=', "type", value);
    }
  }

  lemma StrippedAnnotations(text: string, typ: BlockType, deadlines: BlockDeadlines)
    ensures AreAnnotations(LStrip(text), typ, deadlines) <==> AreAnnotations(text, typ, deadlines)
  {
    LStripFirstPart(text, ',');
    StrippedType(Split(text, ',')[0], typ);
  }

  /** `^name {annotations}:`, with spaces at some places. */
  ghost predicate IsHeaderOf(line: string, name: string, typ: BlockType, deadlines: BlockDeadlines) {
    exists a, b, tail :: IsHeaderLine(line, a, b, tail) && Says(a, b, name, typ, deadlines)
  }

  /** What stands before and between the braces. */
  ghost predicate Says(a: string, b: string, name: string, typ: BlockType, deadlines: BlockDeadlines) {
    name == Strip(a) && IsValidName(name) && AreAnnotations(b, typ, deadlines)
  }

  ghost predicate NoBraces(s: string) {
    '{' !in s && '}' !in s
  }

  ghost predicate IsHeaderLine(line: string, a: string, b: string, tail: string) {
    && line == "^" + a + ['{'] + (b + ['}'] + tail)
    && NoBraces(a) && NoBraces(b) && NoBraces(tail) && RStrip(tail) == ":"
  }

  lemma {:induction false} LStripFront(a: string, c: char, b: string)
    requires !IsSpace(c)
    ensures LStrip(a + [c] + b) == LStrip(a) + [c] + b
  {
    var s := a + [c] + b;
    if a != [] && IsSpace(a[0]) {
      assert s[1..] == a[1..] + [c] + b;
      LStripFront(a[1..], c, b);
    } else {
      assert s[0] == if a == [] then c else a[0];
    }
  }

  // What is left of the text behind the opening brace.

  lemma {:induction false} RStripAround(a: string, c: char, b: string)
    requires !IsSpace(c)
    ensures RStrip(a + [c] + b) == a + [c] + RStrip(b)
  {
    var s := a + [c] + b;
    if b != [] && IsSpace(b[|b| - 1]) {
      assert s[..|s| - 1] == a + [c] + b[..|b| - 1];
      RStripAround(a, c, b[..|b| - 1]);
    } else {
      assert s[|s| - 1] == if b == [] then c else b[|b| - 1];
    }
  }

  lemma StripAround(b: string, tail: string)
    ensures Strip(b + ['}'] + tail) == LStrip(b) + ['}'] + RStrip(tail)
  {
    LStripFront(b, '}', tail);
    RStripAround(LStrip(b), '}', tail);
  }

  lemma StripHead(a: string)
    ensures Strip("^" + a) == "^" + RStrip(a)
    ensures Strip(RStrip(a)) == Strip(a)
  {
    assert LStrip("^" + a) == "^" + a;
    RStripHead(a);
    StripRStrip(a);
  }

  lemma {:induction false} RStripHead(a: string)
    ensures RStrip("^" + a) == "^" + RStrip(a)
  {
    if a != [] && IsSpace(a[|a| - 1]) {
      assert ("^" + a)[..|a|] == "^" + a[..|a| - 1];
      RStripHead(a[..|a| - 1]);
    } else {
      assert a != [] ==> ("^" + a)[|a|] == a[|a| - 1];
    }
  }

  lemma {:induction false} StripRStrip(a: string)
    ensures Strip(RStrip(a)) == Strip(a)
  {
    if a != [] && IsSpace(a[|a| - 1]) {
      StripRStrip(a[..|a| - 1]);
      DropSpace(a[..|a| - 1], a[|a| - 1]);
      assert a == a[..|a| - 1] + [a[|a| - 1]];
    }
  }

  lemma {:induction false} DropSpace(a: string, c: char)
    requires IsSpace(c)
    ensures Strip(a + [c]) == Strip(a)
  {
    if a == [] {
      assert [c][1..] == [];
    } else if IsSpace(a[0]) {
      assert (a + [c])[1..] == a[1..] + [c];
      DropSpace(a[1..], c);
    } else {
      assert LStrip(a + [c]) == a + [c];
      assert (a + [c])[..|a|] == a;
    }
  }

  lemma HeaderCounts(line: string, a: string, b: string, tail: string)
    requires IsHeaderLine(line, a, b, tail)
    ensures Count(line, '{') == 1 && Count(line, '}') == 1 && StartsWith(line, "^")
    ensures Split(line, '{') == ["^" + a, b + ['}'] + tail]
  {
    CountOne("^" + a, '{', b + ['}'] + tail);
    SplitAt("^" + a, '{', b + ['}'] + tail);
    SplitNone(b + ['}'] + tail, '{');
    assert line == ("^" + a + ['{'] + b) + ['}'] + tail;
    CountOne("^" + a + ['{'] + b, '}', tail);
    assert line[..1] == "^";
  }

  lemma {:induction false} RStripWithin(s: string, c: char)
    requires c !in s
    ensures c !in RStrip(s)
  {
    if s != [] && IsSpace(s[|s| - 1]) {
      assert forall x :: x in s[..|s| - 1] ==> x in s;
      RStripWithin(s[..|s| - 1], c);
    }
  }

  /** The parts of a header, as the parser sees them. */
  lemma HeaderPieces(line: string, a: string, b: string, tail: string)
    requires IsHeaderLine(line, a, b, tail)
    ensures var rest := LStrip(b) + ['}'] + ":";
            && StripAll(Split(line, '{')) == ["^" + RStrip(a), rest]
            && Find(rest, '}') == |LStrip(b)| && rest[|LStrip(b)| + 1..] == ":" && rest[..|LStrip(b)|] == LStrip(b)
    ensures Strip(("^" + RStrip(a))[1..]) == Strip(a)
  {
    HeaderCounts(line, a, b, tail);
    StripTwo("^" + a, b + ['}'] + tail);
    StripHead(a);
    StripAround(b, tail);
    LStripWithin(b, '}');
    FindAt(LStrip(b), '}', ":");
    assert ("^" + RStrip(a))[1..] == RStrip(a);
  }

  lemma HeaderComputes(line: string, a: string, b: string, tail: string)
    requires IsHeaderLine(line, a, b, tail)
    ensures ParseHeader(line) ==
            var annotations := ParseAnnotations(LStrip(b));
            if !IsValidName(Strip(a)) || annotations.None? then None
            else Some((Strip(a), annotations.value.0, annotations.value.1))
  {
    HeaderCounts(line, a, b, tail);
    HeaderPieces(line, a, b, tail);
  }

  lemma HeaderReads(line: string, a: string, b: string, tail: string, typ: BlockType, deadlines: BlockDeadlines)
    requires IsHeaderLine(line, a, b, tail)
    ensures ParseHeader(line) == Some((Strip(a), typ, deadlines)) <==> Says(a, b, Strip(a), typ, deadlines)
  {
    HeaderComputes(line, a, b, tail);
    AnnotationsIff(LStrip(b), typ, deadlines);
    StrippedAnnotations(b, typ, deadlines);
  }

  lemma StripWithin(s: string, c: char)
    requires c in Strip(s)
    ensures c in s
  {
    if c !in s {
      LStripWithin(s, c);
      RStripWithin(LStrip(s), c);
    }
  }

  lemma FoundIsIn(s: string, c: char)
    requires Find(s, c) >= 0
    ensures c in s
  {
    assert s[Find(s, c)] == c;
  }

  lemma {:induction false} CountedIfIn(s: string, c: char)
    requires c in s
    ensures Count(s, c) > 0
  {
    if s[0] != c {
      assert s == [s[0]] + s[1..];
      CountedIfIn(s[1..], c);
    }
  }

  /** The only closing brace is behind the opening one. */
  lemma BraceBehind(line: string, left: string, right: string)
    requires line == left + ['{'] + right && Count(line, '}') == 1 && Find(Strip(right), '}') >= 0
    ensures Count(right, '}') == 1 && '}' !in left
  {
    CountConcat(left + ['{'], right, '}');
    CountConcat(left, ['{'], '}');
    assert Count(['{'], '}') == 0 by { assert ['{'][1..] == []; }
    FoundIsIn(Strip(right), '}');
    StripWithin(right, '}');
    CountedIfIn(right, '}');
    NotCounted(left, '}');
  }

  lemma TailIs(b: string, tail: string)
    requires '}' !in b
    ensures var rest := LStrip(b) + ['}'] + RStrip(tail);
            Find(rest, '}') == |LStrip(b)| && rest[|LStrip(b)| + 1..] == RStrip(tail)
  {
    LStripWithin(b, '}');
    FindAt(LStrip(b), '}', RStrip(tail));
  }

  lemma AssembleHeader(line: string, left: string, a: string, b: string, tail: string)
    requires line == left + ['{'] + (b + ['}'] + tail) && left == "^" + a
    requires NoBraces(left) && NoBraces(b) && NoBraces(tail) && RStrip(tail) == ":"
    ensures IsHeaderLine(line, a, b, tail)
  {
    forall c | c in a ensures c in left {
    }
  }

  lemma HeaderCloses(line: string, left: string, right: string)
    requires ParseHeader(line).Some? && StripAll(Split(line, '{')) == [left, right]
    ensures left != []
    ensures var close := Find(right, '}'); close >= 0 && right[close + 1..] == ":"
  {
  }

  lemma LeftStartsHeader(line: string, left: string, right: string)
    requires line == left + ['{'] + right && StartsWith(line, "^") && Strip(left) != []
    ensures left != [] && left[0] == '^'
  {
    assert left != [];
    assert line[..1][0] == line[0] == left[0];
  }

  lemma HeaderSides(line: string) returns (left: string, right: string)
    requires ParseHeader(line).Some?
    ensures line == left + ['{'] + right && '{' !in left && '{' !in right && Count(line, '}') == 1
    ensures left != [] && left[0] == '^'
    ensures var close := Find(Strip(right), '}'); close >= 0 && Strip(right)[close + 1..] == ":"
  {
    left, right := Once(line, '{');
    StripTwo(left, right);
    HeaderCloses(line, Strip(left), Strip(right));
    LeftStartsHeader(line, left, right);
  }

  /** The text of a line that the parser takes for a header. */
  lemma HeaderIsLine(line: string) returns (a: string, b: string, tail: string)
    requires ParseHeader(line).Some?
    ensures IsHeaderLine(line, a, b, tail)
  {
    var left, right := HeaderSides(line);
    BraceBehind(line, left, right);
    b, tail := Once(right, '}');
    StripAround(b, tail);
    TailIs(b, tail);
    a := left[1..];
    assert left == "^" + a;
    AssembleHeader(line, left, a, b, tail);
  }

  /** `_parse_block_header`: a line is read as a header exactly if it has this form. */
  lemma HeaderIff(line: string, name: string, typ: BlockType, deadlines: BlockDeadlines)
    ensures ParseHeader(line) == Some((name, typ, deadlines)) <==> IsHeaderOf(line, name, typ, deadlines)
  {
    if ParseHeader(line) == Some((name, typ, deadlines)) {
      var a, b, tail := HeaderIsLine(line);
      HeaderComputes(line, a, b, tail);
      HeaderReads(line, a, b, tail, typ, deadlines);
    }
    if a, b, tail :| IsHeaderLine(line, a, b, tail) && Says(a, b, name, typ, deadlines) {
      HeaderReads(line, a, b, tail, typ, deadlines);
    }
  }

  /** So a block that is parsed has at most one deadline. */
  lemma AtMostOneDeadline(line: string, name: string, typ: BlockType, deadlines: BlockDeadlines)
    requires IsHeaderOf(line, name, typ, deadlines)
    ensures deadlines.None? || |deadlines.value| == 1
  {
  }

  lemma NoClosingBracket(text: string)
    requires ']' !in text
    ensures ParseDeadline(DropFirst(Strip(text), 12)).None?
  {
    var s := DropFirst(Strip(text), 12);
    if ']' in s {
      StripWithin(text, ']');
    }
    if Find(s, ']') >= 0 {
      FoundIsIn(s, ']');
    }
  }

  /** The annotations of a block with a list of deadlines. */
  ghost function ListAnnotations(typ: BlockType, first: string, rest: string): string {
    "type = " + TypeName(typ) + [','] + ((" deadlines = [" + first) + [','] + (rest + "]"))
  }

  lemma ListIsCut(typ: BlockType, first: string, rest: string)
    requires ',' !in first
    ensures var parts := Split(ListAnnotations(typ, first, rest), ',');
            |parts| >= 2 && parts[1] == " deadlines = [" + first
    ensures LStrip(ListAnnotations(typ, first, rest)) == ListAnnotations(typ, first, rest)
  {
    var front := "type = " + TypeName(typ);
    TypeText(typ);
    SplitAt(front, ',', (" deadlines = [" + first) + [','] + (rest + "]"));
    SplitAt(" deadlines = [" + first, ',', rest + "]");
    assert ListAnnotations(typ, first, rest)[0] == 't';
  }

  lemma ListLine(line: string, name: string, typ: BlockType, first: string, rest: string)
    requires NoBraces(name) && NoBraces(first) && NoBraces(rest)
    requires line == "^" + name + ['{'] + (ListAnnotations(typ, first, rest) + ['}'] + ":")
    ensures IsHeaderLine(line, name, ListAnnotations(typ, first, rest), ":")
  {
    TypeText(typ);
    assert RStrip(":") == ":";
  }

  /** A header with several deadlines in its list is refused, because its annotations are cut
      at the commas before the list is read. */
  lemma SeveralDeadlinesAreRefused(line: string, name: string, typ: BlockType, first: string, rest: string)
    requires NoBraces(name) && NoBraces(first) && NoBraces(rest) && ',' !in first && ']' !in first
    requires line == "^" + name + ['{'] + (ListAnnotations(typ, first, rest) + ['}'] + ":")
    ensures ParseHeader(line).None?
  {
    ListLine(line, name, typ, first, rest);
    HeaderComputes(line, name, ListAnnotations(typ, first, rest), ":");
    ListIsCut(typ, first, rest);
    NoClosingBracket(" deadlines = [" + first);
  }

  // ----- bodies -----

  /** The line is this operation. */
  ghost predicate Reads(line: string, defined: Vectors, op: Op, defined': Vectors) {
    exists p :: Means(line, p, defined, op, defined')
  }

  /** Each line is an operation, and uses the vectors that were defined before it. */
  ghost predicate AreInstructions(lines: seq<string>, defined: Vectors, ops: seq<Op>, defined': Vectors)
    decreases |lines|, 1
  {
    if lines == [] || ops == [] then lines == [] && ops == [] && defined' == defined
    else exists between :: AreInstructionsVia(lines, defined, ops, defined', between)
  }

  /** The vectors `between` are defined before the last line. */
  ghost predicate AreInstructionsVia(lines: seq<string>, defined: Vectors, ops: seq<Op>, defined': Vectors, between: Vectors)
    requires lines != [] && ops != []
    decreases |lines|, 0
  {
    && AreInstructions(lines[..|lines| - 1], defined, ops[..|ops| - 1], between)
    && Reads(lines[|lines| - 1], between, ops[|ops| - 1], defined')
  }

  lemma LastLine(front: seq<string>, line: string, defined: Vectors, before: seq<Op>, between: Vectors, op: Op,
                 defined': Vectors)
    requires AreInstructions(front, defined, before, between) && Reads(line, between, op, defined')
    ensures AreInstructions(front + [line], defined, before + [op], defined')
  {
    var lines, ops := front + [line], before + [op];
    assert lines[..|lines| - 1] == front && ops[..|ops| - 1] == before;
    assert AreInstructionsVia(lines, defined, ops, defined', between);
  }

  lemma ParsesLast(front: seq<string>, line: string, defined: Vectors)
    ensures ParseLines(front + [line], defined) ==
            var before := ParseLines(front, defined);
            if before.None? then None
            else
              var last := ParseLine(line, before.value.1);
              if last.None? then None else Some((before.value.0 + [last.value.0], last.value.1))
  {
    var lines := front + [line];
    assert lines[..|lines| - 1] == front;
  }

  lemma {:induction false} LinesRead(lines: seq<string>, defined: Vectors, ops: seq<Op>, defined': Vectors)
    requires ParseLines(lines, defined) == Some((ops, defined'))
    ensures AreInstructions(lines, defined, ops, defined')
  {
    if lines != [] {
      var front, line := lines[..|lines| - 1], lines[|lines| - 1];
      assert lines == front + [line];
      ParsesLast(front, line, defined);
      var before := ParseLines(front, defined).value;
      var op := ParseLine(line, before.1).value.0;
      LinesRead(front, defined, before.0, before.1);
      LineIff(line, before.1, op, defined');
      LastLine(front, line, defined, before.0, before.1, op, defined');
    }
  }

  lemma SplitLast(lines: seq<string>, defined: Vectors, ops: seq<Op>, defined': Vectors)
    returns (front: seq<string>, last: string, before: seq<Op>, op: Op, between: Vectors)
    requires AreInstructions(lines, defined, ops, defined') && lines != []
    ensures lines == front + [last] && ops == before + [op] && |front| < |lines|
    ensures AreInstructions(front, defined, before, between) && Reads(last, between, op, defined')
  {
    front, last := lines[..|lines| - 1], lines[|lines| - 1];
    before, op := ops[..|ops| - 1], ops[|ops| - 1];
    FrontAndLast(lines);
    FrontAndLast(ops);
    between :| AreInstructionsVia(lines, defined, ops, defined', between);
  }

  lemma ParsesOneMore(front: seq<string>, last: string, defined: Vectors, before: seq<Op>, between: Vectors, op: Op,
                      defined': Vectors)
    requires ParseLines(front, defined) == Some((before, between)) && Reads(last, between, op, defined')
    ensures ParseLines(front + [last], defined) == Some((before + [op], defined'))
  {
    LineIff(last, between, op, defined');
    ParsesLast(front, last, defined);
  }

  lemma {:induction false} ReadsLines(lines: seq<string>, defined: Vectors, ops: seq<Op>, defined': Vectors)
    requires AreInstructions(lines, defined, ops, defined')
    ensures ParseLines(lines, defined) == Some((ops, defined'))
    decreases |lines|
  {
    if lines != [] {
      var front, last, before, op, between := SplitLast(lines, defined, ops, defined');
      ReadsLines(front, defined, before, between);
      ParsesOneMore(front, last, defined, before, between, op, defined');
    }
  }

  lemma LinesIff(lines: seq<string>, defined: Vectors, ops: seq<Op>, defined': Vectors)
    ensures ParseLines(lines, defined) == Some((ops, defined')) <==> AreInstructions(lines, defined, ops, defined')
  {
    if ParseLines(lines, defined) == Some((ops, defined')) {
      LinesRead(lines, defined, ops, defined');
    }
    if AreInstructions(lines, defined, ops, defined') {
      ReadsLines(lines, defined, ops, defined');
    }
  }

  // ----- blocks -----

  /** A header line, and the lines of the body. */
  ghost predicate IsBlock(lines: seq<string>, defined: Vectors, b: Block, defined': Vectors) {
    && lines != [] && IsHeaderOf(lines[0], b.name, b.typ, b.deadlines)
    && AreInstructions(lines[1..], defined, b.instructions, defined')
  }

  lemma BlockComputes(lines: seq<string>, defined: Vectors)
    requires CleanLines(lines) && lines != []
    ensures ParseBlock(Join(lines, "\n"), defined) ==
            var header, body := ParseHeader(lines[0]), ParseLines(lines[1..], defined);
            if header.None? || body.None? then None
            else Some((Block(header.value.0, header.value.1, body.value.0, header.value.2), body.value.1))
  {
    LinesOfJoin(lines);
    LinesOfJoin(lines[1..]);
  }

  lemma NoLinesNoBlock(defined: Vectors)
    ensures ParseBlock(Join([], "\n"), defined).None?
  {
    LinesOfJoin([]);
  }

  lemma BlockIff(lines: seq<string>, defined: Vectors, b: Block, defined': Vectors)
    requires CleanLines(lines)
    ensures ParseBlock(Join(lines, "\n"), defined) == Some((b, defined')) <==> IsBlock(lines, defined, b, defined')
  {
    if lines == [] {
      NoLinesNoBlock(defined);
    } else {
      BlockComputes(lines, defined);
      HeaderIff(lines[0], b.name, b.typ, b.deadlines);
      LinesIff(lines[1..], defined, b.instructions, defined');
      assert b == Block(b.name, b.typ, b.instructions, b.deadlines);
    }
  }

  // ----- whole host code -----

  /** The groups are blocks, each with the vectors that the ones before it have defined. */
  ghost predicate AreBlocks(groups: seq<seq<string>>, blocks: seq<Block>, defined: Vectors)
    decreases |groups|, 1
  {
    if groups == [] || blocks == [] then groups == [] && blocks == [] && defined == map[]
    else exists between :: AreBlocksVia(groups, blocks, defined, between)
  }

  ghost predicate AreBlocksVia(groups: seq<seq<string>>, blocks: seq<Block>, defined: Vectors, between: Vectors)
    requires groups != [] && blocks != []
    decreases |groups|, 0
  {
    && AreBlocks(groups[..|groups| - 1], blocks[..|blocks| - 1], between)
    && IsBlock(groups[|groups| - 1], between, blocks[|blocks| - 1], defined)
  }

  ghost predicate CleanGroups(groups: seq<seq<string>>) {
    forall i :: 0 <= i < |groups| ==> CleanLines(groups[i])
  }

  lemma ParsesLastGroup(front: seq<seq<string>>, group: seq<string>)
    ensures ParseGroups(front + [group], map[]) ==
            var before := ParseGroups(front, map[]);
            if before.None? then None
            else
              var last := ParseBlock(Join(group, "\n"), before.value.1);
              if last.None? then None else Some((before.value.0 + [last.value.0], last.value.1))
  {
    var groups := front + [group];
    assert groups[..|groups| - 1] == front;
  }

  lemma LastGroup(front: seq<seq<string>>, group: seq<string>, before: seq<Block>, between: Vectors, b: Block,
                  defined: Vectors)
    requires AreBlocks(front, before, between) && IsBlock(group, between, b, defined)
    ensures AreBlocks(front + [group], before + [b], defined)
  {
    var groups, blocks := front + [group], before + [b];
    assert groups[..|groups| - 1] == front && blocks[..|blocks| - 1] == before;
    assert AreBlocksVia(groups, blocks, defined, between);
  }

  lemma {:induction false} GroupsRead(groups: seq<seq<string>>, blocks: seq<Block>, defined: Vectors)
    requires CleanGroups(groups) && ParseGroups(groups, map[]) == Some((blocks, defined))
    ensures AreBlocks(groups, blocks, defined)
  {
    if groups != [] {
      var front, group := groups[..|groups| - 1], groups[|groups| - 1];
      FrontAndLast(groups);
      ParsesLastGroup(front, group);
      var before := ParseGroups(front, map[]).value;
      var b := ParseBlock(Join(group, "\n"), before.1).value.0;
      GroupsRead(front, before.0, before.1);
      BlockIff(group, before.1, b, defined);
      LastGroup(front, group, before.0, before.1, b, defined);
    }
  }

  lemma SplitLastGroup(groups: seq<seq<string>>, blocks: seq<Block>, defined: Vectors)
    returns (front: seq<seq<string>>, group: seq<string>, before: seq<Block>, b: Block, between: Vectors)
    requires AreBlocks(groups, blocks, defined) && groups != [] && CleanGroups(groups)
    ensures groups == front + [group] && blocks == before + [b] && |front| < |groups| && CleanGroups(front)
    ensures AreBlocks(front, before, between) && IsBlock(group, between, b, defined) && CleanLines(group)
  {
    front, group := groups[..|groups| - 1], groups[|groups| - 1];
    before, b := blocks[..|blocks| - 1], blocks[|blocks| - 1];
    FrontAndLast(groups);
    FrontAndLast(blocks);
    between :| AreBlocksVia(groups, blocks, defined, between);
  }

  lemma ParsesOneMoreBlock(front: seq<seq<string>>, group: seq<string>, before: seq<Block>, between: Vectors, b: Block,
                           defined: Vectors)
    requires ParseGroups(front, map[]) == Some((before, between)) && IsBlock(group, between, b, defined) && CleanLines(group)
    ensures ParseGroups(front + [group], map[]) == Some((before + [b], defined))
  {
    BlockIff(group, between, b, defined);
    ParsesLastGroup(front, group);
  }

  lemma {:induction false} ReadsGroups(groups: seq<seq<string>>, blocks: seq<Block>, defined: Vectors)
    requires CleanGroups(groups) && AreBlocks(groups, blocks, defined)
    ensures ParseGroups(groups, map[]) == Some((blocks, defined))
    decreases |groups|
  {
    if groups != [] {
      var front, group, before, b, between := SplitLastGroup(groups, blocks, defined);
      ReadsGroups(front, before, between);
      ParsesOneMoreBlock(front, group, before, between, b, defined);
    }
  }

  lemma {:induction false} RStripEnds(s: string)
    ensures RStrip(s) == [] || !IsSpace(RStrip(s)[|RStrip(s)| - 1])
    ensures s != [] && RStrip(s) != [] ==> RStrip(s)[0] == s[0]
    ensures forall x :: x in RStrip(s) ==> x in s
  {
    if s != [] && IsSpace(s[|s| - 1]) {
      RStripEnds(s[..|s| - 1]);
    }
  }

  lemma StrippedIsTrimmed(s: string)
    requires Strip(s) != []
    ensures Trimmed(Strip(s))
  {
    LStripEmpty(s);
    RStripEnds(LStrip(s));
  }

  lemma {:induction false} NonEmptyKeeps(lines: seq<string>, line: string)
    ensures line in NonEmpty(lines) <==> line in lines && line != []
  {
    if lines != [] {
      NonEmptyKeeps(lines[1..], line);
      assert lines == [lines[0]] + lines[1..];
    }
  }

  lemma LineOfText(text: string, line: string)
    requires line in Lines(text)
    ensures Trimmed(line) && '\n' !in line
  {
    var parts := Split(text, '\n');
    NonEmptyKeeps(StripAll(parts), line);
    var i :| 0 <= i < |parts| && StripAll(parts)[i] == line;
    SplitJoins(text, '\n');
    assert parts[i] in parts;
    StrippedIsTrimmed(parts[i]);
    if '\n' in Strip(parts[i]) {
      StripWithin(parts[i], '\n');
    }
  }

  lemma LinesAreClean(text: string)
    ensures CleanLines(Lines(text))
  {
    var lines := Lines(text);
    forall i | 0 <= i < |lines| ensures Trimmed(lines[i]) && '\n' !in lines[i] {
      assert lines[i] in lines;
      LineOfText(text, lines[i]);
    }
  }

  /** The groups are the lines from the first header on: each starts with a header line and
      has no other, and together they are all these lines in order. */
  ghost predicate AreGroups(lines: seq<string>, groups: seq<seq<string>>, skipped: nat) {
    && skipped <= |lines| && Flatten(groups) == lines[skipped..]
    && (forall i :: 0 <= i < skipped ==> !IsHeader(lines[i]))
    && forall i :: 0 <= i < |groups| ==> IsGroup(groups[i])
  }

  lemma SkippedLine(lines: seq<string>, groups: seq<seq<string>>, k: nat)
    requires lines != [] && !IsHeader(lines[0]) && AreGroups(lines[1..], groups, k)
    ensures AreGroups(lines, groups, k + 1)
  {
    var skipped := k + 1;
    assert lines[1..][k..] == lines[skipped..];
    forall i | 0 <= i < skipped ensures !IsHeader(lines[i]) {
      assert i > 0 ==> lines[i] == lines[1..][i - 1];
    }
  }

  lemma NothingSkipped(lines: seq<string>, groups: seq<seq<string>>, k: nat)
    requires AreGroups(lines, groups, k) && (lines == [] || IsHeader(lines[0]))
    ensures k == 0 && Flatten(groups) == lines
  {
    assert lines[0..] == lines;
  }

  lemma FirstGroupIs(lines: seq<string>, n: nat)
    requires lines != [] && IsHeader(lines[0]) && n == 1 + BodyLength(lines[1..])
    ensures n <= |lines| && IsGroup(lines[..n]) && (lines[n..] == [] || IsHeader(lines[n..][0]))
    ensures BlockGroups(lines) == [lines[..n]] + BlockGroups(lines[n..])
  {
    forall i | 1 <= i < n ensures !IsHeader(lines[..n][i]) {
      assert lines[..n][i] == lines[1..][i - 1];
    }
  }

  lemma FlattenCons(group: seq<string>, groups: seq<seq<string>>)
    ensures Flatten([group] + groups) == group + Flatten(groups)
  {
    assert ([group] + groups)[1..] == groups;
  }

  lemma OneMoreGroup(group: seq<string>, rest: seq<string>, groups: seq<seq<string>>)
    requires IsGroup(group) && Flatten(groups) == rest && forall i :: 0 <= i < |groups| ==> IsGroup(groups[i])
    ensures AreGroups(group + rest, [group] + groups, 0)
  {
    FlattenCons(group, groups);
    var lines := group + rest;
    assert lines[0..] == lines;
  }

  lemma HeaderCase(lines: seq<string>, group: seq<string>, rest: seq<string>, groups: seq<seq<string>>, k: nat)
    requires lines == group + rest && IsGroup(group) && (rest == [] || IsHeader(rest[0])) && AreGroups(rest, groups, k)
    ensures AreGroups(lines, [group] + groups, 0)
  {
    NothingSkipped(rest, groups, k);
    OneMoreGroup(group, rest, groups);
  }

  lemma TakeAndDrop(s: seq<string>, n: nat)
    requires n <= |s|
    ensures s == s[..n] + s[n..]
  {
  }

  lemma CutFirstGroup(lines: seq<string>, n: nat) returns (group: seq<string>, rest: seq<string>)
    requires lines != [] && IsHeader(lines[0]) && n == 1 + BodyLength(lines[1..])
    ensures lines == group + rest && |rest| < |lines| && IsGroup(group) && (rest == [] || IsHeader(rest[0]))
    ensures BlockGroups(lines) == [group] + BlockGroups(rest)
  {
    FirstGroupIs(lines, n);
    TakeAndDrop(lines, n);
    group, rest := lines[..n], lines[n..];
  }

  lemma FirstGroup(lines: seq<string>) returns (group: seq<string>, rest: seq<string>)
    requires lines != [] && IsHeader(lines[0])
    ensures lines == group + rest && |rest| < |lines| && IsGroup(group) && (rest == [] || IsHeader(rest[0]))
    ensures BlockGroups(lines) == [group] + BlockGroups(rest)
  {
    group, rest := CutFirstGroup(lines, 1 + BodyLength(lines[1..]));
  }

  lemma {:induction false} GroupsAre(lines: seq<string>) returns (skipped: nat)
    ensures AreGroups(lines, BlockGroups(lines), skipped)
    decreases |lines|
  {
    if lines == [] {
      skipped := 0;
    } else if !IsHeader(lines[0]) {
      var k := GroupsAre(lines[1..]);
      SkippedLine(lines, BlockGroups(lines[1..]), k);
      skipped := k + 1;
    } else {
      var group, rest := FirstGroup(lines);
      var k := GroupsAre(rest);
      HeaderCase(lines, group, rest, BlockGroups(rest), k);
      skipped := 0;
    }
  }

  lemma {:induction false} GroupsAreClean(lines: seq<string>)
    requires CleanLines(lines)
    ensures CleanGroups(BlockGroups(lines))
    decreases |lines|
  {
    if lines != [] {
      if !IsHeader(lines[0]) {
        GroupsAreClean(lines[1..]);
      } else {
        var n := 1 + BodyLength(lines[1..]);
        GroupsAreClean(lines[n..]);
      }
    }
  }

  ghost predicate IsHostCode(groups: seq<seq<string>>, blocks: seq<Block>) {
    exists defined :: AreBlocks(groups, blocks, defined)
  }

  lemma GroupsIff(groups: seq<seq<string>>, blocks: seq<Block>)
    requires CleanGroups(groups)
    ensures var parsed := ParseGroups(groups, map[]);
            parsed.Some? && parsed.value.0 == blocks <==> IsHostCode(groups, blocks)
  {
    var parsed := ParseGroups(groups, map[]);
    if parsed.Some? && parsed.value.0 == blocks {
      GroupsRead(groups, blocks, parsed.value.1);
    }
    if defined :| AreBlocks(groups, blocks, defined) {
      ReadsGroups(groups, blocks, defined);
    }
  }

  /** A text is read as host code exactly if it has a header line, and the groups of its
      stripped non-empty lines from the first header on are blocks, one after the other. */
  lemma HostCodeIff(text: string, blocks: seq<Block>)
    ensures ParseHostCode(text) == Some(blocks) <==>
              BlockGroups(Lines(text)) != [] && IsHostCode(BlockGroups(Lines(text)), blocks)
  {
    LinesAreClean(text);
    GroupsAreClean(Lines(text));
    GroupsIff(BlockGroups(Lines(text)), blocks);
  }
}
