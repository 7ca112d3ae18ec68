/** Which metadata and id mappings the parsers accept, and what they read in them
    (qoala/lang/parse.py:116-223, qoala/lang/request.py:107-151). */
module MetaGrammar {
  import opened Tasks
  import opened Strings
  import opened HostLang
  import opened HostGrammar
  import opened Metadata

  // ----- splitting at two characters -----

  lemma JoinEmptyFirst(rest: seq<string>, sep: string)
    requires rest != []
    ensures Join([[]] + rest, sep) == sep + Join(rest, sep)
  {
    assert ([[]] + rest)[1..] == rest;
  }

  lemma JoinLongerFirst(x: char, rest: seq<string>, sep: string)
    requires rest != []
    ensures Join([[x] + rest[0]] + rest[1..], sep) == [x] + Join(rest, sep)
  {
    assert ([[x] + rest[0]] + rest[1..])[1..] == rest[1..];
  }

  /** The parts make up the text again. */
  lemma {:induction false} PairsJoin(s: string, c: char, d: char)
    ensures Join(SplitPair(s, c, d), [c, d]) == s
  {
    if |s| >= 2 {
      if s[0] == c && s[1] == d {
        PairsJoin(s[2..], c, d);
        JoinEmptyFirst(SplitPair(s[2..], c, d), [c, d]);
        assert s == [c, d] + s[2..];
      } else {
        PairsJoin(s[1..], c, d);
        JoinLongerFirst(s[0], SplitPair(s[1..], c, d), [c, d]);
        assert s == [s[0]] + s[1..];
      }
    }
  }

  /** The two characters next to each other. */
  ghost predicate HasPair(s: string, c: char, d: char) {
    exists i :: 0 <= i < |s| - 1 && IsPairAt(s, i, c, d)
  }

  ghost predicate IsPairAt(s: string, i: nat, c: char, d: char)
    requires i + 1 < |s|
  {
    s[i] == c && s[i + 1] == d
  }

  /** And none of them has the two characters in it. */
  lemma {:induction false} PartsHaveNoPair(s: string, c: char, d: char)
    requires c != d
    ensures forall part :: part in SplitPair(s, c, d) ==> !HasPair(part, c, d)
  {
    if |s| >= 2 {
      if s[0] == c && s[1] == d {
        PartsHaveNoPair(s[2..], c, d);
      } else {
        PartsHaveNoPair(s[1..], c, d);
        var rest := SplitPair(s[1..], c, d);
        FirstPartStarts(s[1..], c, d);
        assert rest[0] in rest;
        NoPairInFront(s[0], rest[0], c, d);
      }
    }
  }

  lemma FirstPartStarts(s: string, c: char, d: char)
    requires s != []
    ensures SplitPair(s, c, d)[0] != [] ==> SplitPair(s, c, d)[0][0] == s[0]
    ensures SplitPair(s, c, d)[0] == [] ==> s[0] == c
  {
  }

  lemma NoPairInFront(x: char, part: string, c: char, d: char)
    requires !HasPair(part, c, d) && (part != [] ==> !(x == c && part[0] == d))
    ensures !HasPair([x] + part, c, d)
  {
    var s := [x] + part;
    if i :| 0 <= i < |s| - 1 && IsPairAt(s, i, c, d) {
      if i > 0 {
        assert IsPairAt(part, i - 1, c, d);
      }
    }
  }

  // ----- lines of metadata -----

  /** What follows the key and the only colon of a line. */
  ghost predicate HasKey(line: string, key: string) {
    StartsWith(line, key + [':']) && ':' !in line[|key| + 1..]
  }

  /** The texts between commas; there are none if nothing follows the colon. */
  ghost function ValuesOf(line: string, key: string): seq<string>
    requires HasKey(line, key)
  {
    var rest := line[|key| + 1..];
    if rest == [] then [] else StripAll(Split(rest, ','))
  }

  lemma KeyAndRest(line: string, key: string)
    requires HasKey(line, key)
    ensures line == key + [':'] + line[|key| + 1..]
  {
    assert line == line[..|key| + 1] + line[|key| + 1..];
  }

  lemma MetaLineIs(line: string, key: string)
    requires ':' !in key
    ensures ParseMetaLine(key, line).Some? <==> HasKey(line, key)
    ensures HasKey(line, key) ==> ParseMetaLine(key, line) == Some(ValuesOf(line, key))
  {
    if ParseMetaLine(key, line).Some? {
      var a, rest := Once(line, ':');
      assert line[..|key| + 1] == key + [':'] && line[|key| + 1..] == rest;
    }
    if HasKey(line, key) {
      var rest := line[|key| + 1..];
      KeyAndRest(line, key);
      CountOne(key, ':', rest);
      SplitAt(key, ':', rest);
      SplitNone(rest, ':');
    }
  }

  /** `id -> node`, with one arrow. */
  ghost predicate IsSocket(text: string, socket: (int, string)) {
    exists parts ::
      SplitPair(text, '-', '>') == parts && |parts| == 2 && ParseInt(Strip(parts[0])) == Some(socket.0) && Strip(parts[1]) == socket.1
  }

  lemma SocketIff(text: string, socket: (int, string))
    ensures ParseSocket(text) == Some(socket) <==> IsSocket(text, socket)
  {
    var parts := SplitPair(text, '-', '>');
    assert StripAll(parts)[0] == Strip(parts[0]);
  }

  // ----- dictionaries -----

  /** Entry `i` is the last one with its key. */
  ghost predicate IsLastEntry(entries: seq<(int, string)>, i: int) {
    0 <= i < |entries| && forall j :: i < j < |entries| ==> entries[j].0 != entries[i].0
  }

  ghost predicate IsLastValue(entries: seq<(int, string)>, e: (int, string)) {
    exists i :: IsLastEntry(entries, i) && entries[i] == e
  }

  /** The dictionary has the last value of each key, and each key once. */
  ghost predicate IsDictionary(entries: seq<(int, string)>, d: seq<(int, string)>) {
    && DistinctKeys(d)
    && forall e :: e in d <==> IsLastValue(entries, e)
  }

  lemma {:induction false} AssignedKeys(d: seq<(int, string)>, key: int, value: string)
    requires DistinctKeys(d)
    ensures DistinctKeys(Assign(d, key, value))
    ensures forall e :: e in Assign(d, key, value) <==> e == (key, value) || (e in d && e.0 != key)
  {
    if d != [] {
      var rest := d[1..];
      forall i, j | 0 <= i < j < |rest| ensures rest[i].0 != rest[j].0 {
        assert rest[i] == d[i + 1] && rest[j] == d[j + 1];
      }
      forall e | e in rest ensures e.0 != d[0].0 {
        var j :| 0 <= j < |rest| && rest[j] == e;
        assert e == d[j + 1];
      }
      assert forall e :: e in d <==> e == d[0] || e in rest;
      if d[0].0 != key {
        AssignedKeys(rest, key, value);
        DistinctCons(d[0], Assign(rest, key, value));
      } else {
        DistinctCons((key, value), rest);
      }
    }
  }

  lemma DistinctCons(e: (int, string), rest: seq<(int, string)>)
    requires DistinctKeys(rest) && forall f :: f in rest ==> f.0 != e.0
    ensures DistinctKeys([e] + rest)
  {
    var d := [e] + rest;
    forall i, j | 0 <= i < j < |d| ensures d[i].0 != d[j].0 {
      assert d[j] == rest[j - 1] && d[j] in rest;
      assert i > 0 ==> d[i] == rest[i - 1];
    }
  }

  lemma LastEntryLonger(entries: seq<(int, string)>, e: (int, string), i: int)
    ensures IsLastEntry(entries + [e], i) <==>
              i == |entries| || (IsLastEntry(entries, i) && entries[i].0 != e.0)
  {
    var longer := entries + [e];
    if IsLastEntry(entries, i) && entries[i].0 != e.0 {
      forall j | i < j < |longer| ensures longer[j].0 != longer[i].0 {
        assert j < |entries| ==> longer[j] == entries[j];
      }
    }
    if IsLastEntry(longer, i) && i < |entries| {
      assert longer[|entries|] == e && longer[i] == entries[i];
      forall j | i < j < |entries| ensures entries[j].0 != entries[i].0 {
        assert longer[j] == entries[j];
      }
    }
  }

  lemma LastValueLonger(entries: seq<(int, string)>, e: (int, string), f: (int, string))
    ensures IsLastValue(entries + [e], f) <==> f == e || (IsLastValue(entries, f) && f.0 != e.0)
  {
    var longer := entries + [e];
    LastEntryLonger(entries, e, |entries|);
    if i :| IsLastEntry(longer, i) && longer[i] == f {
      LastEntryLonger(entries, e, i);
    }
    if i :| IsLastEntry(entries, i) && entries[i] == f {
      LastEntryLonger(entries, e, i);
      assert longer[i] == f;
    }
  }

  lemma AssignedIsDictionary(entries: seq<(int, string)>, d: seq<(int, string)>, e: (int, string))
    requires IsDictionary(entries, d)
    ensures IsDictionary(entries + [e], Assign(d, e.0, e.1))
  {
    AssignedKeys(d, e.0, e.1);
    forall f ensures f in Assign(d, e.0, e.1) <==> IsLastValue(entries + [e], f) {
      LastValueLonger(entries, e, f);
      assert f in d <==> IsLastValue(entries, f);
    }
  }

  /** The texts are these sockets. */
  ghost predicate AreSockets(texts: seq<string>, entries: seq<(int, string)>) {
    |entries| == |texts| && forall i :: 0 <= i < |texts| ==> IsSocket(texts[i], entries[i])
  }

  lemma ParsesLastSocket(front: seq<string>, text: string)
    ensures ParseSockets(front + [text]) ==
            var before, last := ParseSockets(front), ParseSocket(text);
            if before.None? || last.None? then None else Some(Assign(before.value, last.value.0, last.value.1))
  {
    var texts := front + [text];
    assert texts[..|texts| - 1] == front;
  }

  lemma SocketsAppend(front: seq<string>, before: seq<(int, string)>, text: string, e: (int, string))
    requires AreSockets(front, before) && IsSocket(text, e)
    ensures AreSockets(front + [text], before + [e])
  {
  }

  /** What the texts of sockets give: the dictionary of their entries. */
  lemma {:induction false} SocketsRead(texts: seq<string>) returns (entries: seq<(int, string)>)
    requires ParseSockets(texts).Some?
    ensures AreSockets(texts, entries) && IsDictionary(entries, ParseSockets(texts).value)
  {
    if texts == [] {
      entries := [];
    } else {
      var front, text := texts[..|texts| - 1], texts[|texts| - 1];
      assert texts == front + [text];
      ParsesLastSocket(front, text);
      var before := SocketsRead(front);
      var e := ParseSocket(text).value;
      SocketIff(text, e);
      SocketsAppend(front, before, text, e);
      AssignedIsDictionary(before, ParseSockets(front).value, e);
      entries := before + [e];
    }
  }

  lemma {:induction false} ReadsSockets(texts: seq<string>, entries: seq<(int, string)>)
    requires AreSockets(texts, entries)
    ensures ParseSockets(texts).Some?
  {
    if texts != [] {
      var n := |texts| - 1;
      ReadsSockets(texts[..n], entries[..n]);
      SocketIff(texts[n], entries[n]);
    }
  }

  /** A line of sockets, which are these entries, with valid node names. */
  ghost predicate IsSocketLine(line: string, key: string, entries: seq<(int, string)>, d: seq<(int, string)>) {
    HasKey(line, key) && AreSockets(ValuesOf(line, key), entries) && IsDictionary(entries, d) && NodesValid(d)
  }

  lemma SocketLineRead(line: string, key: string) returns (entries: seq<(int, string)>)
    requires ':' !in key && ParseSocketLine(key, line).Some?
    ensures IsSocketLine(line, key, entries, ParseSocketLine(key, line).value)
  {
    MetaLineIs(line, key);
    entries := SocketsRead(ValuesOf(line, key));
  }

  lemma SameEntries(d: seq<(int, string)>, e: seq<(int, string)>, entries: seq<(int, string)>)
    requires IsDictionary(entries, d) && IsDictionary(entries, e) && NodesValid(d)
    ensures NodesValid(e)
  {
    forall i | 0 <= i < |e| ensures IsValidName(e[i].1) {
      assert e[i] in e;
      assert e[i] in d;
    }
  }

  lemma SocketUnique(text: string, a: (int, string), b: (int, string))
    requires IsSocket(text, a) && IsSocket(text, b)
    ensures a == b
  {
    SocketIff(text, a);
    SocketIff(text, b);
  }

  lemma SocketsUnique(texts: seq<string>, a: seq<(int, string)>, b: seq<(int, string)>)
    requires AreSockets(texts, a) && AreSockets(texts, b)
    ensures a == b
  {
    forall i | 0 <= i < |texts| ensures a[i] == b[i] {
      SocketUnique(texts[i], a[i], b[i]);
    }
  }

  lemma ReadsSocketLine(line: string, key: string, entries: seq<(int, string)>, d: seq<(int, string)>)
    requires ':' !in key && IsSocketLine(line, key, entries, d)
    ensures ParseSocketLine(key, line).Some?
  {
    var values := ValuesOf(line, key);
    MetaLineIs(line, key);
    ReadsSockets(values, entries);
    var read := SocketsRead(values);
    SocketsUnique(values, read, entries);
    SameEntries(d, ParseSockets(values).value, entries);
  }

  // ----- all metadata -----

  ghost predicate IsNameLine(line: string, name: string) {
    HasKey(line, "name") && |ValuesOf(line, "name")| == 1 && Strip(ValuesOf(line, "name")[0]) == name && IsValidName(name)
  }

  ghost predicate IsParameterLine(line: string, names: seq<string>) {
    HasKey(line, "parameters") && ValuesOf(line, "parameters") == names && AllValid(names)
  }

  /** The six lines in their order; `cs` and `es` are the entries of the two lines of sockets. */
  ghost predicate IsMeta(lines: seq<string>, m: Meta, cs: seq<(int, string)>, es: seq<(int, string)>) {
    && |lines| >= 6 && lines[0] == "META_START" && lines[5] == "META_END"
    && IsNameLine(lines[1], m.name) && IsParameterLine(lines[2], m.parameters)
    && IsSocketLine(lines[3], "csockets", cs, m.csockets) && IsSocketLine(lines[4], "epr_sockets", es, m.eprSockets)
  }

  ghost predicate FrontParses(lines: seq<string>) {
    && |lines| >= 6 && lines[0] == "META_START" && lines[5] == "META_END"
    && (var name := ParseMetaLine("name", lines[1]);
        name.Some? && |name.value| == 1 && IsValidName(Strip(name.value[0])))
    && (var parameters := ParseMetaLine("parameters", lines[2]); parameters.Some? && AllValid(parameters.value))
  }

  /** What the parser needs of the six lines. */
  ghost predicate PartsParse(lines: seq<string>) {
    && FrontParses(lines)
    && ParseSocketLine("csockets", lines[3]).Some? && ParseSocketLine("epr_sockets", lines[4]).Some?
  }

  lemma PartsParseIff(lines: seq<string>)
    ensures ParseMetaLines(lines).Some? <==> PartsParse(lines)
    ensures PartsParse(lines) ==>
              ParseMetaLines(lines).value ==
              Meta(Strip(ParseMetaLine("name", lines[1]).value[0]), ParseMetaLine("parameters", lines[2]).value,
                   ParseSocketLine("csockets", lines[3]).value, ParseSocketLine("epr_sockets", lines[4]).value)
  {
  }

  lemma MetaRead(lines: seq<string>) returns (cs: seq<(int, string)>, es: seq<(int, string)>)
    requires ParseMetaLines(lines).Some?
    ensures IsMeta(lines, ParseMetaLines(lines).value, cs, es)
  {
    PartsParseIff(lines);
    MetaLineIs(lines[1], "name");
    MetaLineIs(lines[2], "parameters");
    cs := SocketLineRead(lines[3], "csockets");
    es := SocketLineRead(lines[4], "epr_sockets");
  }

  lemma FrontReads(nameLine: string, parameterLine: string, m: Meta)
    requires IsNameLine(nameLine, m.name) && IsParameterLine(parameterLine, m.parameters)
    ensures var name, parameters := ParseMetaLine("name", nameLine), ParseMetaLine("parameters", parameterLine);
            && name.Some? && |name.value| == 1 && IsValidName(Strip(name.value[0]))
            && parameters.Some? && AllValid(parameters.value)
  {
    MetaLineIs(nameLine, "name");
    MetaLineIs(parameterLine, "parameters");
  }

  lemma ReadsFront(lines: seq<string>, m: Meta, cs: seq<(int, string)>, es: seq<(int, string)>)
    ensures IsMeta(lines, m, cs, es) ==> FrontParses(lines)
  {
    if IsMeta(lines, m, cs, es) {
      FrontReads(lines[1], lines[2], m);
    }
  }

  lemma ReadsThird(lines: seq<string>, m: Meta, cs: seq<(int, string)>, es: seq<(int, string)>)
    ensures IsMeta(lines, m, cs, es) ==> ParseSocketLine("csockets", lines[3]).Some?
  {
    if IsMeta(lines, m, cs, es) {
      ReadsSocketLine(lines[3], "csockets", cs, m.csockets);
    }
  }

  lemma ReadsFourth(lines: seq<string>, m: Meta, cs: seq<(int, string)>, es: seq<(int, string)>)
    ensures IsMeta(lines, m, cs, es) ==> ParseSocketLine("epr_sockets", lines[4]).Some?
  {
    if IsMeta(lines, m, cs, es) {
      ReadsSocketLine(lines[4], "epr_sockets", es, m.eprSockets);
    }
  }

  lemma ReadsMeta(lines: seq<string>, m: Meta, cs: seq<(int, string)>, es: seq<(int, string)>)
    ensures IsMeta(lines, m, cs, es) ==> ParseMetaLines(lines).Some?
  {
    ReadsFront(lines, m, cs, es);
    ReadsThird(lines, m, cs, es);
    ReadsFourth(lines, m, cs, es);
    PartsParseIff(lines);
  }

  /** A text is read as metadata exactly if its lines have this form, and then it is read as
      what they say. */
  lemma MetaIff(text: string) returns (cs: seq<(int, string)>, es: seq<(int, string)>)
    ensures ParseMeta(text).Some? ==> IsMeta(Lines(text), ParseMeta(text).value, cs, es)
    ensures ParseMeta(text).None? ==> forall m, cs, es :: !IsMeta(Lines(text), m, cs, es)
  {
    cs, es := [], [];
    if ParseMeta(text).Some? {
      cs, es := MetaRead(Lines(text));
    }
    forall m, cs, es | IsMeta(Lines(text), m, cs, es) ensures ParseMeta(text).Some? {
      ReadsMeta(Lines(text), m, cs, es);
    }
  }

  // ----- id mappings -----

  ghost predicate OnlyBraces(s: string) {
    forall c :: c in s ==> c == '{' || c == '}'
  }

  /** `core` between braces, any number of them. */
  ghost predicate IsInBraces(text: string, core: string) {
    && (core != [] ==> !IsBrace(core[0]) && !IsBrace(core[|core| - 1]))
    && exists l, r :: text == l + core + r && OnlyBraces(l) && OnlyBraces(r)
  }

  lemma {:induction false} DroppedBraces(text: string)
    ensures IsInBraces(text, DropBraces(text))
  {
    var core := DropBraces(text);
    if text != [] && IsBrace(text[0]) {
      DroppedBraces(text[1..]);
      var l, r :| text[1..] == l + core + r && OnlyBraces(l) && OnlyBraces(r);
      assert text == ([text[0]] + l) + core + r;
      assert OnlyBraces([text[0]] + l);
    } else if text != [] && IsBrace(text[|text| - 1]) {
      var front, last := text[..|text| - 1], text[|text| - 1];
      DroppedBraces(front);
      var l, r :| front == l + core + r && OnlyBraces(l) && OnlyBraces(r);
      assert text == l + core + (r + [last]);
      assert OnlyBraces(r + [last]);
    } else {
      var l: string, r: string := [], [];
      assert text == l + core + r && OnlyBraces(l) && OnlyBraces(r);
    }
  }

  /** The text stands for the value: a name in braces is a template, anything else a number. */
  ghost predicate IsIdText(text: string, v: IdValue) {
    if StartsWith(text, "{") && EndsWith(text, "}") then
      v.Template? && v == Template(Strip(DropBraces(text)))
    else v.Number? && ParseInt(text) == Some(v.n)
  }

  lemma IdTextIff(text: string, v: IdValue)
    ensures ParseIdValue(text) == Some(v) <==> IsIdText(text, v)
  {
  }

  ghost predicate AreNumbers(texts: seq<string>, ns: seq<int>) {
    |ns| == |texts| && forall i :: 0 <= i < |texts| ==> ParseInt(texts[i]) == Some(ns[i])
  }

  lemma {:induction false} NumbersIff(texts: seq<string>, ns: seq<int>)
    ensures ParseInts(texts) == Some(ns) <==> AreNumbers(texts, ns)
  {
    if texts != [] && ns != [] {
      NumbersIff(texts[1..], ns[1..]);
      assert ns == [ns[0]] + ns[1..];
    }
  }

  /** What a text stands for as a mapping. */
  ghost predicate IsMapping(text: string, m: IdMapping) {
    match m
    case All(v) => StartsWith(text, "all ") && IsIdText(text[4..], v)
    case Increment(v) => StartsWith(text, "increment ") && IsIdText(text[10..], v)
    case Custom(ns) => StartsWith(text, "custom ") && AreNumbers(SplitPair(text[7..], ',', ' '), ns)
  }

  lemma FirstLetter(text: string, prefix: string)
    requires prefix != [] && StartsWith(text, prefix)
    ensures text != [] && text[0] == prefix[0]
  {
    assert text[..|prefix|][0] == text[0];
  }

  /** `from_str`: a text is read as a mapping exactly if it stands for it. */
  lemma MappingIff(text: string, m: IdMapping)
    ensures ParseMapping(text) == Some(m) <==> IsMapping(text, m)
  {
    if StartsWith(text, "all ") {
      FirstLetter(text, "all ");
      OtherKeyword(text, 'a');
      match m
      case All(v) => IdTextIff(text[4..], v);
      case _ =>
    } else if StartsWith(text, "increment ") {
      FirstLetter(text, "increment ");
      OtherKeyword(text, 'i');
      match m
      case Increment(v) => IdTextIff(text[10..], v);
      case _ =>
    } else if StartsWith(text, "custom ") {
      match m
      case Custom(ns) => NumbersIff(SplitPair(text[7..], ',', ' '), ns);
      case _ =>
    }
  }

  lemma OtherKeyword(text: string, first: char)
    requires text != [] && text[0] == first
    ensures first != 'a' ==> !StartsWith(text, "all ")
    ensures first != 'i' ==> !StartsWith(text, "increment ")
    ensures first != 'c' ==> !StartsWith(text, "custom ")
  {
    if StartsWith(text, "all ") {
      FirstLetter(text, "all ");
    }
    if StartsWith(text, "increment ") {
      FirstLetter(text, "increment ");
    }
    if StartsWith(text, "custom ") {
      FirstLetter(text, "custom ");
    }
  }
}
