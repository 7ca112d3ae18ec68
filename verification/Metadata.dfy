/** Program metadata and virtual-id mappings (qoala/lang/program.py:44-51,
    qoala/lang/parse.py:74-223, qoala/lang/request.py:96-151). */
module Metadata {
  import opened Tasks
  import opened Strings
  import opened HostLang

  // ----- splitting at two characters -----

  function SplitPair(s: string, c: char, d: char): (r: seq<string>)
    ensures |r| >= 1
  {
    if |s| < 2 then [s]
    else if s[0] == c && s[1] == d then [[]] + SplitPair(s[2..], c, d)
    else
      var rest := SplitPair(s[1..], c, d);
      [[s[0]] + rest[0]] + rest[1..]
  }

  lemma {:induction false} SplitPairNone(s: string, c: char, d: char)
    requires d !in s
    ensures SplitPair(s, c, d) == [s]
  {
    if |s| >= 2 {
      assert s[1] in s;
      assert forall x :: x in s[1..] ==> x in s;
      SplitPairNone(s[1..], c, d);
      assert [s[0]] + s[1..] == s;
    }
  }

  lemma {:induction false} SplitPairAt(a: string, c: char, d: char, b: string)
    requires d !in a && c != d
    ensures SplitPair(a + [c, d] + b, c, d) == [a] + SplitPair(b, c, d)
  {
    var s := a + [c, d] + b;
    if a == [] {
      assert s[2..] == b;
    } else {
      assert a[0] in a && forall x :: x in a[1..] ==> x in a;
      assert s[0] == a[0] && s[1..] == a[1..] + [c, d] + b;
      assert s[1] != d by { assert s[1] == if |a| > 1 then a[1] else c; }
      SplitPairAt(a[1..], c, d, b);
      assert [a[0]] + a[1..] == a;
    }
  }

  /** Splitting at ", " undoes joining with it. */
  lemma {:induction false} SplitPairJoin(parts: seq<string>, c: char, d: char)
    requires parts != [] && c != d && forall i :: 0 <= i < |parts| ==> d !in parts[i]
    ensures SplitPair(Join(parts, [c, d]), c, d) == parts
  {
    if |parts| == 1 {
      SplitPairNone(parts[0], c, d);
    } else {
      SplitPairJoin(parts[1..], c, d);
      SplitPairAt(parts[0], c, d, Join(parts[1..], [c, d]));
      assert [parts[0]] + parts[1..] == parts;
    }
  }

  // ----- virtual-id mappings -----

  datatype IdValue = Number(n: int) | Template(name: string)

  datatype IdMapping = All(value: IdValue) | Increment(value: IdValue) | Custom(values: seq<int>)

  function PrintIdValue(v: IdValue): string {
    if v.Number? then Decimal(v.n) else "{" + v.name + "}"
  }

  function Decimals(ns: seq<int>): (r: seq<string>)
    ensures |r| == |ns| && forall i :: 0 <= i < |ns| ==> r[i] == Decimal(ns[i])
  {
    if ns == [] then [] else [Decimal(ns[0])] + Decimals(ns[1..])
  }

  function PrintMapping(m: IdMapping): string {
    match m
    case All(v) => "all " + PrintIdValue(v)
    case Increment(v) => "increment " + PrintIdValue(v)
    case Custom(ns) => "custom " + Join(Decimals(ns), ", ")
  }

  predicate IsBrace(c: char) {
    c == '{' || c == '}'
  }

  function DropBraces(s: string): (r: string)
    ensures |r| <= |s|
  {
    if s != [] && IsBrace(s[0]) then DropBraces(s[1..])
    else if s != [] && IsBrace(s[|s| - 1]) then DropBraces(s[..|s| - 1])
    else s
  }

  function ParseIdValue(text: string): Option<IdValue> {
    if StartsWith(text, "{") && EndsWith(text, "}") then Some(Template(Strip(DropBraces(text))))
    else
      var n := ParseInt(text);
      if n.Some? then Some(Number(n.value)) else None
  }

  function ParseInts(texts: seq<string>): Option<seq<int>> {
    if texts == [] then Some([])
    else
      var first := ParseInt(texts[0]);
      var rest := ParseInts(texts[1..]);
      if first.None? || rest.None? then None else Some([first.value] + rest.value)
  }

  /** None models the ValueError. */
  function ParseMapping(text: string): Option<IdMapping> {
    if StartsWith(text, "all ") then
      var v := ParseIdValue(text[4..]);
      if v.None? then None else Some(All(v.value))
    else if StartsWith(text, "increment ") then
      var v := ParseIdValue(text[10..]);
      if v.None? then None else Some(Increment(v.value))
    else if StartsWith(text, "custom ") then
      var ns := ParseInts(SplitPair(text[7..], ',', ' '));
      if ns.None? then None else Some(Custom(ns.value))
    else None
  }

  /** A template name has no spaces or braces at its ends. */
  predicate GoodTemplate(name: string) {
    name == [] || (Trimmed(name) && !IsBrace(name[0]) && !IsBrace(name[|name| - 1]))
  }

  predicate GoodMapping(m: IdMapping) {
    match m
    case All(v) => v.Template? ==> GoodTemplate(v.name)
    case Increment(v) => v.Template? ==> GoodTemplate(v.name)
    case Custom(ns) => ns != []
  }

  lemma DropsTheBraces(name: string)
    requires GoodTemplate(name)
    ensures DropBraces("{" + name + "}") == name
  {
    var s, t := "{" + name + "}", name + "}";
    assert s[1..] == t;
    assert t[|t| - 1] == '}' && t[..|t| - 1] == name;
    if name == [] {
      assert t == "}" && t[1..] == [];
      assert DropBraces(t) == DropBraces(t[1..]);
    } else {
      assert t[0] == name[0];
      assert DropBraces(t) == DropBraces(name);
    }
  }

  lemma IdValueRoundTrip(v: IdValue)
    requires v.Template? ==> GoodTemplate(v.name)
    ensures ParseIdValue(PrintIdValue(v)) == Some(v)
  {
    match v
    case Number(n) =>
      NumberRoundTrip(n);
      assert Decimal(n)[0] in Decimal(n);
    case Template(name) =>
      DropsTheBraces(name);
      if name != [] { StripTrimmed(name); }
  }

  lemma {:induction false} IntsRoundTrip(ns: seq<int>)
    ensures ParseInts(Decimals(ns)) == Some(ns)
  {
    if ns != [] {
      NumberRoundTrip(ns[0]);
      IntsRoundTrip(ns[1..]);
      assert Decimals(ns)[1..] == Decimals(ns[1..]);
      assert [ns[0]] + ns[1..] == ns;
    }
  }

  lemma PrefixIs(prefix: string, rest: string)
    ensures StartsWith(prefix + rest, prefix) && (prefix + rest)[|prefix|..] == rest
  {
  }

  lemma AllRoundTrip(v: IdValue)
    requires v.Template? ==> GoodTemplate(v.name)
    ensures ParseMapping(PrintMapping(All(v))) == Some(All(v))
  {
    PrefixIs("all ", PrintIdValue(v));
    IdValueRoundTrip(v);
  }

  lemma IncrementRoundTrip(v: IdValue)
    requires v.Template? ==> GoodTemplate(v.name)
    ensures ParseMapping(PrintMapping(Increment(v))) == Some(Increment(v))
  {
    var text := "increment " + PrintIdValue(v);
    PrefixIs("increment ", PrintIdValue(v));
    IdValueRoundTrip(v);
    assert text[0] == 'i' && !StartsWith(text, "all ");
  }

  lemma CustomIntsRoundTrip(ns: seq<int>)
    requires ns != []
    ensures ParseInts(SplitPair(Join(Decimals(ns), ", "), ',', ' ')) == Some(ns)
  {
    forall i | 0 <= i < |ns| ensures ' ' !in Decimals(ns)[i] {
    }
    assert [',', ' '] == ", ";
    SplitPairJoin(Decimals(ns), ',', ' ');
    IntsRoundTrip(ns);
  }

  lemma CustomRoundTrip(ns: seq<int>)
    requires ns != []
    ensures ParseMapping(PrintMapping(Custom(ns))) == Some(Custom(ns))
  {
    var inner := Join(Decimals(ns), ", ");
    var text := "custom " + inner;
    PrefixIs("custom ", inner);
    assert text[0] == 'c' && !StartsWith(text, "all ") && !StartsWith(text, "increment ");
    CustomIntsRoundTrip(ns);
  }

  /** Reading a printed mapping gives the mapping back, whatever its numbers. */
  lemma MappingRoundTrip(m: IdMapping)
    requires GoodMapping(m)
    ensures ParseMapping(PrintMapping(m)) == Some(m)
  {
    match m
    case All(v) => AllRoundTrip(v);
    case Increment(v) => IncrementRoundTrip(v);
    case Custom(ns) => CustomRoundTrip(ns);
  }

  lemma EmptyCustomIsLost()
    ensures ParseMapping(PrintMapping(Custom([]))) != Some(Custom([]))
  {
    PrefixIs("custom ", "");
    assert Join(Decimals([]), ", ") == "";
    assert PrintMapping(Custom([])) == "custom ";
    assert SplitPair("", ',', ' ') == [""];
    assert ParseInt("").None?;
  }

  lemma {:induction false} LStripIs(s: string)
    ensures |LStrip(s)| <= |s| && (LStrip(s) != [] ==> !IsSpace(LStrip(s)[0]))
  {
    if s != [] && IsSpace(s[0]) {
      LStripIs(s[1..]);
    }
  }

  lemma {:induction false} RStripIs(s: string)
    ensures |RStrip(s)| <= |s| && (RStrip(s) != [] ==> RStrip(s)[0] == s[0] && !IsSpace(RStrip(s)[|RStrip(s)| - 1]))
  {
    if s != [] && IsSpace(s[|s| - 1]) {
      RStripIs(s[..|s| - 1]);
    }
  }

  lemma StripIs(s: string)
    ensures |Strip(s)| <= |s| && (Strip(s) == [] || Trimmed(Strip(s)))
  {
    LStripIs(s);
    RStripIs(LStrip(s));
  }

  /** Dropping the braces around a name also drops those at its own ends. */
  lemma OuterBracesAreLost(name: string)
    requires name != [] && (IsBrace(name[0]) || IsBrace(name[|name| - 1]))
    ensures |DropBraces("{" + name + "}")| < |name|
  {
    var s, t := "{" + name + "}", name + "}";
    assert s[1..] == t;
    if IsBrace(name[0]) {
      var u := t[1..];
      assert t[0] == name[0] && u[|u| - 1] == '}' && |u| == |name|;
      assert DropBraces(t) == DropBraces(u);
      assert |DropBraces(u)| < |u|;
    } else {
      assert t[0] == name[0] && t[..|name|] == name;
      assert DropBraces(t) == DropBraces(name);
    }
  }

  lemma TemplateSurvivor(name: string)
    requires ParseIdValue(PrintIdValue(Template(name))) == Some(Template(name))
    ensures GoodTemplate(name)
  {
    var s := "{" + name + "}";
    assert StartsWith(s, "{") && EndsWith(s, "}");
    StripIs(DropBraces(s));
    if name != [] && (IsBrace(name[0]) || IsBrace(name[|name| - 1])) {
      OuterBracesAreLost(name);
    }
  }

  lemma IdValueSurvivor(v: IdValue)
    requires ParseIdValue(PrintIdValue(v)) == Some(v)
    ensures v.Template? ==> GoodTemplate(v.name)
  {
    if v.Template? {
      TemplateSurvivor(v.name);
    }
  }

  lemma ParsesAll(v: IdValue)
    ensures ParseMapping(PrintMapping(All(v))) ==
            if ParseIdValue(PrintIdValue(v)).None? then None else Some(All(ParseIdValue(PrintIdValue(v)).value))
  {
    PrefixIs("all ", PrintIdValue(v));
  }

  lemma ParsesIncrement(v: IdValue)
    ensures ParseMapping(PrintMapping(Increment(v))) ==
            if ParseIdValue(PrintIdValue(v)).None? then None else Some(Increment(ParseIdValue(PrintIdValue(v)).value))
  {
    var text := "increment " + PrintIdValue(v);
    PrefixIs("increment ", PrintIdValue(v));
    assert text[0] == 'i' && !StartsWith(text, "all ");
  }

  /** A printed mapping is read back as itself exactly if a template name in it has no
      spaces or braces at its ends, and a list of ids is not empty. */
  lemma MappingSurvivesIffGood(m: IdMapping)
    ensures ParseMapping(PrintMapping(m)) == Some(m) <==> GoodMapping(m)
  {
    if GoodMapping(m) {
      MappingRoundTrip(m);
    } else {
      match m
      case All(v) =>
        ParsesAll(v);
        if ParseIdValue(PrintIdValue(v)) == Some(v) { IdValueSurvivor(v); }
      case Increment(v) =>
        ParsesIncrement(v);
        if ParseIdValue(PrintIdValue(v)) == Some(v) { IdValueSurvivor(v); }
      case Custom(ns) => EmptyCustomIsLost();
    }
  }

  /** The id of pair `index`; None models an IndexError, or the failed assertion on a
      template that has not been filled in. */
  function GetId(m: IdMapping, index: int): Option<int> {
    match m
    case All(v) => if v.Number? then Some(v.n) else None
    case Increment(v) => if v.Number? then Some(v.n + index) else None
    case Custom(ns) =>
      if 0 <= index < |ns| then Some(ns[index]) else if -|ns| <= index < 0 then Some(ns[|ns| + index]) else None
  }

  // ----- program metadata -----

  /** Sockets in the order in which they were declared. */
  datatype Meta = Meta(name: string, parameters: seq<string>, csockets: seq<(int, string)>, eprSockets: seq<(int, string)>)

  function PrintSockets(sockets: seq<(int, string)>): (r: seq<string>)
    ensures |r| == |sockets| && forall i :: 0 <= i < |sockets| ==> r[i] == Decimal(sockets[i].0) + " -> " + sockets[i].1
  {
    if sockets == [] then []
    else [Decimal(sockets[0].0) + " -> " + sockets[0].1] + PrintSockets(sockets[1..])
  }

  function MetaLines(m: Meta): seq<string> {
    ["META_START", "name: " + m.name, "parameters: " + Join(m.parameters, ", "),
     "csockets: " + Join(PrintSockets(m.csockets), ", "), "epr_sockets: " + Join(PrintSockets(m.eprSockets), ", "),
     "META_END"]
  }

  function SerializeMeta(m: Meta): string {
    Join(MetaLines(m), "\n")
  }

  /** The values of one line; None models a QoalaParseError. */
  function ParseMetaLine(key: string, line: string): Option<seq<string>> {
    var parts := Split(line, ':');
    if Count(line, ':') != 1 || parts[0] != key then None
    else if |parts| == 1 || parts[1] == [] then Some([])
    else Some(StripAll(Split(parts[1], ',')))
  }

  function ParseSocket(text: string): Option<(int, string)> {
    var parts := StripAll(SplitPair(text, '-', '>'));
    if |parts| != 2 then None
    else
      var id := ParseInt(parts[0]);
      if id.None? then None else Some((id.value, parts[1]))
  }

  /** `dict[key] = value`: a key that exists keeps its place. */
  function Assign(sockets: seq<(int, string)>, key: int, value: string): seq<(int, string)> {
    if sockets == [] then [(key, value)]
    else if sockets[0].0 == key then [(key, value)] + sockets[1..]
    else [sockets[0]] + Assign(sockets[1..], key, value)
  }

  function ParseSockets(texts: seq<string>): Option<seq<(int, string)>> {
    if texts == [] then Some([])
    else
      var before := ParseSockets(texts[..|texts| - 1]);
      var last := ParseSocket(texts[|texts| - 1]);
      if before.None? || last.None? then None else Some(Assign(before.value, last.value.0, last.value.1))
  }

  predicate AllValid(names: seq<string>) {
    forall i :: 0 <= i < |names| ==> IsValidName(names[i])
  }

  predicate NodesValid(sockets: seq<(int, string)>) {
    forall i :: 0 <= i < |sockets| ==> IsValidName(sockets[i].1)
  }

  /** The sockets of one line. */
  function ParseSocketLine(key: string, line: string): Option<seq<(int, string)>> {
    var values := ParseMetaLine(key, line);
    var sockets := if values.Some? then ParseSockets(values.value) else None;
    if sockets.None? || !NodesValid(sockets.value) then None else sockets
  }

  function ParseMetaLines(lines: seq<string>): Option<Meta> {
    if |lines| < 6 || lines[0] != "META_START" || lines[5] != "META_END" then None
    else
      var name := ParseMetaLine("name", lines[1]);
      var parameters := ParseMetaLine("parameters", lines[2]);
      var csockets := ParseSocketLine("csockets", lines[3]);
      var eprSockets := ParseSocketLine("epr_sockets", lines[4]);
      if name.None? || |name.value| != 1 || !IsValidName(Strip(name.value[0])) then None
      else if parameters.None? || !AllValid(parameters.value) || csockets.None? || eprSockets.None? then None
      else Some(Meta(Strip(name.value[0]), parameters.value, csockets.value, eprSockets.value))
  }

  function ParseMeta(text: string): Option<Meta> {
    ParseMetaLines(Lines(text))
  }

  predicate DistinctKeys(sockets: seq<(int, string)>) {
    forall i, j :: 0 <= i < j < |sockets| ==> sockets[i].0 != sockets[j].0
  }

  predicate GoodMeta(m: Meta) {
    && IsValidName(m.name) && AllValid(m.parameters)
    && NodesValid(m.csockets) && NodesValid(m.eprSockets) && DistinctKeys(m.csockets) && DistinctKeys(m.eprSockets)
  }

  // ----- metadata round trip -----

  lemma {:induction false} SplitJoinLines(lines: seq<string>)
    requires lines != [] && forall i :: 0 <= i < |lines| ==> '\n' !in lines[i]
    ensures Split(Join(lines, "\n"), '\n') == lines
  {
    if |lines| == 1 {
      SplitNone(lines[0], '\n');
    } else {
      SplitJoinLines(lines[1..]);
      SplitAt(lines[0], '\n', Join(lines[1..], "\n"));
      assert lines[0] + "\n" + Join(lines[1..], "\n") == lines[0] + ['\n'] + Join(lines[1..], "\n");
      assert [lines[0]] + lines[1..] == lines;
    }
  }

  lemma {:induction false} NonEmptyAll(lines: seq<string>)
    requires forall i :: 0 <= i < |lines| ==> lines[i] != []
    ensures NonEmpty(lines) == lines
  {
    if lines != [] {
      NonEmptyAll(lines[1..]);
      assert [lines[0]] + lines[1..] == lines;
    }
  }

  /** Parts that can be listed in a line of metadata. */
  ghost predicate IsPart(p: string) {
    Trimmed(p) && ',' !in p && ':' !in p && '\n' !in p
  }

  lemma {:induction false} JoinParts(parts: seq<string>)
    requires parts != [] && forall i :: 0 <= i < |parts| ==> IsPart(parts[i])
    ensures Trimmed(Join(parts, ", ")) && ':' !in Join(parts, ", ") && '\n' !in Join(parts, ", ")
  {
    if |parts| > 1 {
      JoinParts(parts[1..]);
      var tail := Join(parts[1..], ", ");
      var s := parts[0] + ", " + tail;
      assert s[0] == parts[0][0] && s[|s| - 1] == tail[|tail| - 1];
    }
  }

  ghost predicate IsKey(key: string) {
    Trimmed(key) && ':' !in key && '\n' !in key
  }

  lemma EmptyLine(key: string)
    requires IsKey(key)
    ensures ParseMetaLine(key, key + ":") == Some([]) && Strip((key + ":") + " ") == key + ":"
  {
    assert Trimmed(key + ":");
    StripTrimmed(key + ":");
    assert key + ":" == key + [':'] + [];
    SplitAt(key, ':', []);
    CountOne(key, ':', []);
  }

  lemma FullLineParses(key: string, rest: string, line: string)
    requires ':' !in key && ':' !in rest && rest != [] && line == key + [':'] + rest
    ensures ParseMetaLine(key, line) == Some(StripAll(Split(rest, ',')))
  {
    SplitAt(key, ':', rest);
    SplitNone(rest, ':');
    CountOne(key, ':', rest);
  }

  lemma FullLineStrips(key: string, inner: string, line: string)
    requires Trimmed(key) && Trimmed(inner) && line == key + [':'] + (" " + inner)
    ensures Strip(line) == line
  {
    assert line[0] == key[0] && line[|line| - 1] == inner[|inner| - 1];
    StripTrimmed(line);
  }

  lemma FullLine(key: string, inner: string)
    requires Trimmed(key) && ':' !in key && Trimmed(inner) && ':' !in inner
    ensures var line := key + [':'] + (" " + inner);
            Strip(line) == line && ParseMetaLine(key, line) == Some(StripAll(Split(" " + inner, ',')))
  {
    var line := key + [':'] + (" " + inner);
    FullLineStrips(key, inner, line);
    FullLineParses(key, " " + inner, line);
  }

  ghost predicate ReadsAs(key: string, line: string, parts: seq<string>) {
    ParseMetaLine(key, Strip(line)) == Some(parts) && Strip(line) != [] && '\n' !in line
  }

  lemma FullMetaLine(key: string, inner: string, parts: seq<string>)
    requires IsKey(key) && Trimmed(inner) && ':' !in inner && '\n' !in inner
    requires StripAll(Split(" " + inner, ',')) == parts
    ensures ReadsAs(key, key + ": " + inner, parts)
  {
    FullLine(key, inner);
    assert key + ": " + inner == key + [':'] + (" " + inner);
  }

  /** One line of metadata, as the parser sees it. */
  lemma MetaLine(key: string, parts: seq<string>)
    requires IsKey(key) && forall i :: 0 <= i < |parts| ==> IsPart(parts[i])
    ensures ReadsAs(key, key + ": " + Join(parts, ", "), parts)
  {
    if parts == [] {
      EmptyLine(key);
      KeyAlone(key);
    } else {
      JoinParts(parts);
      PartsOfLine(parts);
      FullMetaLine(key, Join(parts, ", "), parts);
    }
  }

  lemma KeyAlone(key: string)
    ensures key + ": " + Join([], ", ") == (key + ":") + " "
  {
    assert ": " == ":" + " ";
    assert key + ": " + [] == key + ": ";
  }

  lemma PartsOfLine(parts: seq<string>)
    requires parts != [] && forall i :: 0 <= i < |parts| ==> IsPart(parts[i])
    ensures StripAll(Split(" " + Join(parts, ", "), ',')) == parts
  {
    LeadingSpace(Join(parts, ", "), ',');
    forall p | p in parts ensures Trimmed(p) && ',' !in p {
      var i :| 0 <= i < |parts| && parts[i] == p;
    }
    SplitJoin(parts, ',');
    assert [',', ' '] == ", ";
  }

  lemma NameIsPart(name: string)
    requires IsValidName(name)
    ensures IsPart(name) && '>' !in name && '-' !in name
  {
    assert IsNameChar(name[|name| - 1]);
    forall c | c in name ensures IsNameChar(c) {
      var i :| 0 <= i < |name| && name[i] == c;
    }
  }

  lemma SocketParts(number: string, node: string)
    requires Trimmed(number) && Trimmed(node) && '>' !in number && '>' !in node
    ensures StripAll(SplitPair((number + " ") + ['-', '>'] + (" " + node), '-', '>')) == [number, node]
  {
    SplitPairAt(number + " ", '-', '>', " " + node);
    SplitPairNone(" " + node, '-', '>');
    StripTrimmed(number);
    StripTrimmed(node);
    StripTwo(number + " ", " " + node);
  }

  lemma StripTwo(a: string, b: string)
    ensures StripAll([a] + [b]) == [Strip(a), Strip(b)]
  {
    assert ([a] + [b])[1..] == [b];
  }

  lemma ArrowText(number: string, node: string)
    ensures (number + " ") + ['-', '>'] + (" " + node) == number + " -> " + node
  {
  }

  lemma SocketIsPart(number: string, node: string)
    requires IsPart(number) && IsPart(node)
    ensures IsPart(number + " -> " + node)
  {
    var text := number + " -> " + node;
    assert text[0] == number[0] && text[|text| - 1] == node[|node| - 1];
  }

  lemma DecimalIsPart(id: int)
    ensures IsPart(Decimal(id)) && '>' !in Decimal(id)
  {
    NumbersAreTrimmed(id);
  }

  lemma SocketRoundTrip(id: int, node: string)
    requires IsValidName(node)
    ensures ParseSocket(Decimal(id) + " -> " + node) == Some((id, node)) && IsPart(Decimal(id) + " -> " + node)
  {
    NameIsPart(node);
    DecimalIsPart(id);
    SocketIsPart(Decimal(id), node);
    SocketIsParsed(Decimal(id), id, node);
  }

  lemma SocketIsParsed(number: string, id: int, node: string)
    requires number == Decimal(id) && Trimmed(number) && Trimmed(node) && '>' !in number && '>' !in node
    ensures ParseSocket(number + " -> " + node) == Some((id, node))
  {
    SocketParts(number, node);
    ArrowText(number, node);
    NumberRoundTrip(id);
  }

  lemma {:induction false} AssignNew(sockets: seq<(int, string)>, key: int, value: string)
    requires forall i :: 0 <= i < |sockets| ==> sockets[i].0 != key
    ensures Assign(sockets, key, value) == sockets + [(key, value)]
  {
    if sockets != [] {
      AssignNew(sockets[1..], key, value);
      assert [sockets[0]] + sockets[1..] == sockets;
    }
  }

  lemma ParseOneMoreSocket(front: seq<string>, text: string, before: seq<(int, string)>, socket: (int, string))
    requires ParseSockets(front) == Some(before) && ParseSocket(text) == Some(socket)
    requires forall i :: 0 <= i < |before| ==> before[i].0 != socket.0
    ensures ParseSockets(front + [text]) == Some(before + [socket])
  {
    assert (front + [text])[..|front|] == front;
    AssignNew(before, socket.0, socket.1);
  }

  lemma {:induction false} PrintSocketsAppend(front: seq<(int, string)>, last: (int, string))
    ensures PrintSockets(front + [last]) == PrintSockets(front) + [Decimal(last.0) + " -> " + last.1]
  {
    if front == [] {
      assert [last][1..] == [];
    } else {
      assert (front + [last])[1..] == front[1..] + [last];
      PrintSocketsAppend(front[1..], last);
    }
  }

  lemma SocketsBefore(front: seq<(int, string)>, last: (int, string))
    requires NodesValid(front + [last]) && DistinctKeys(front + [last])
    ensures NodesValid(front) && DistinctKeys(front) && IsValidName(last.1)
    ensures forall i :: 0 <= i < |front| ==> front[i].0 != last.0
  {
    var sockets := front + [last];
    assert sockets[|front|] == last;
    assert forall i :: 0 <= i < |front| ==> sockets[i] == front[i];
  }

  lemma {:induction false} SocketsRoundTrip(sockets: seq<(int, string)>)
    requires NodesValid(sockets) && DistinctKeys(sockets)
    ensures ParseSockets(PrintSockets(sockets)) == Some(sockets)
  {
    if sockets != [] {
      var front, last := sockets[..|sockets| - 1], sockets[|sockets| - 1];
      assert front + [last] == sockets;
      SocketsBefore(front, last);
      SocketsRoundTrip(front);
      PrintSocketsAppend(front, last);
      SocketRoundTrip(last.0, last.1);
      ParseOneMoreSocket(PrintSockets(front), Decimal(last.0) + " -> " + last.1, front, last);
    }
  }

  lemma SocketsAreParts(sockets: seq<(int, string)>, i: nat)
    requires NodesValid(sockets) && i < |sockets|
    ensures IsPart(PrintSockets(sockets)[i])
  {
    SocketRoundTrip(sockets[i].0, sockets[i].1);
  }

  lemma SocketLine(key: string, sockets: seq<(int, string)>, line: string)
    requires IsKey(key) && NodesValid(sockets) && DistinctKeys(sockets)
    requires line == key + ": " + Join(PrintSockets(sockets), ", ")
    ensures ParseSocketLine(key, Strip(line)) == Some(sockets) && Strip(line) != [] && '\n' !in line
  {
    forall i | 0 <= i < |sockets| ensures IsPart(PrintSockets(sockets)[i]) {
      SocketsAreParts(sockets, i);
    }
    MetaLine(key, PrintSockets(sockets));
    SocketsRoundTrip(sockets);
  }

  lemma NameLine(name: string, line: string)
    requires IsValidName(name) && line == "name: " + name
    ensures ReadsAs("name", line, [name])
  {
    NameIsPart(name);
    MetaLine("name", [name]);
    assert Join([name], ", ") == name;
    assert "name" + ": " + name == line;
  }

  lemma ParameterLine(names: seq<string>, line: string)
    requires AllValid(names) && line == "parameters: " + Join(names, ", ")
    ensures ReadsAs("parameters", line, names)
  {
    forall i | 0 <= i < |names| ensures IsPart(names[i]) {
      NameIsPart(names[i]);
    }
    MetaLine("parameters", names);
    assert "parameters" + ": " + Join(names, ", ") == line;
  }

  /** A line that is there after the text is split. */
  ghost predicate IsLine(line: string) {
    '\n' !in line && Strip(line) != []
  }

  lemma LinesOfSplit(text: string, lines: seq<string>)
    requires Split(text, '\n') == lines && forall i :: 0 <= i < |lines| ==> Strip(lines[i]) != []
    ensures Lines(text) == StripAll(lines)
  {
    NonEmptyAll(StripAll(lines));
  }

  lemma LinesOfAll(lines: seq<string>, text: string)
    requires lines != [] && text == Join(lines, "\n") && forall i :: 0 <= i < |lines| ==> IsLine(lines[i])
    ensures Lines(text) == StripAll(lines)
  {
    SplitJoinLines(lines);
    LinesOfSplit(text, lines);
  }

  lemma ParsesMeta(lines: seq<string>, m: Meta)
    requires |lines| == 6 && lines[0] == "META_START" && lines[5] == "META_END"
    requires ParseMetaLine("name", lines[1]) == Some([m.name]) && IsValidName(m.name) && Strip(m.name) == m.name
    requires ParseMetaLine("parameters", lines[2]) == Some(m.parameters) && AllValid(m.parameters)
    requires ParseSocketLine("csockets", lines[3]) == Some(m.csockets)
    requires ParseSocketLine("epr_sockets", lines[4]) == Some(m.eprSockets)
    ensures ParseMetaLines(lines) == Some(m)
  {
  }

  /** `lines` are the lines of printed metadata, before they are stripped. */
  ghost predicate ArePrinted(lines: seq<string>, m: Meta) {
    && |lines| == 6 && lines[0] == "META_START" && lines[5] == "META_END"
    && ReadsAs("name", lines[1], [m.name]) && ReadsAs("parameters", lines[2], m.parameters)
    && ParseSocketLine("csockets", Strip(lines[3])) == Some(m.csockets) && Strip(lines[3]) != [] && '\n' !in lines[3]
    && ParseSocketLine("epr_sockets", Strip(lines[4])) == Some(m.eprSockets) && Strip(lines[4]) != [] && '\n' !in lines[4]
  }

  lemma KeysAreKeys()
    ensures IsKey("name") && IsKey("parameters") && IsKey("csockets") && IsKey("epr_sockets")
  {
  }

  lemma MetaIsPrinted(m: Meta, lines: seq<string>)
    requires GoodMeta(m) && |lines| == 6 && lines[0] == "META_START" && lines[5] == "META_END"
    requires lines[1] == "name: " + m.name && lines[2] == "parameters: " + Join(m.parameters, ", ")
    requires lines[3] == "csockets" + ": " + Join(PrintSockets(m.csockets), ", ")
    requires lines[4] == "epr_sockets" + ": " + Join(PrintSockets(m.eprSockets), ", ")
    ensures ArePrinted(lines, m)
  {
    KeysAreKeys();
    NameLine(m.name, lines[1]);
    ParameterLine(m.parameters, lines[2]);
    SocketLine("csockets", m.csockets, lines[3]);
    SocketLine("epr_sockets", m.eprSockets, lines[4]);
  }

  lemma SixLines(lines: seq<string>)
    requires |lines| == 6 && IsLine(lines[0]) && IsLine(lines[1]) && IsLine(lines[2]) && IsLine(lines[3]) &&
             IsLine(lines[4])
    requires IsLine(lines[5])
    ensures forall i :: 0 <= i < |lines| ==> IsLine(lines[i])
  {
  }

  lemma EndsAreLines(lines: seq<string>)
    requires |lines| == 6 && lines[0] == "META_START" && lines[5] == "META_END"
    ensures IsLine(lines[0]) && IsLine(lines[5]) && Strip(lines[0]) == lines[0] && Strip(lines[5]) == lines[5]
  {
    StripTrimmed("META_START");
    StripTrimmed("META_END");
  }

  lemma PrintedIsParsed(lines: seq<string>, text: string, m: Meta)
    requires ArePrinted(lines, m) && IsValidName(m.name) && AllValid(m.parameters) && text == Join(lines, "\n")
    ensures ParseMeta(text) == Some(m)
  {
    EndsAreLines(lines);
    NameIsPart(m.name);
    StripTrimmed(m.name);
    SixLines(lines);
    LinesOfAll(lines, text);
    ParsesMeta(StripAll(lines), m);
  }

  /** Parsing printed metadata gives the metadata back, for any number of parameters and
      sockets. */
  lemma MetaRoundTrip(m: Meta)
    requires GoodMeta(m)
    ensures ParseMeta(SerializeMeta(m)) == Some(m)
  {
    MetaIsPrinted(m, MetaLines(m));
    PrintedIsParsed(MetaLines(m), SerializeMeta(m), m);
  }

  // ----- the parser class -----

  lemma {:induction false} FailedSocketStays(texts: seq<string>, n: nat)
    requires n <= |texts| && ParseSockets(texts[..n]).None?
    ensures ParseSockets(texts).None?
    decreases |texts| - n
  {
    if n == |texts| {
      assert texts[..n] == texts;
    } else {
      assert texts[..n + 1][..n] == texts[..n];
      FailedSocketStays(texts, n + 1);
    }
  }

  class MetaParser {
    const lines: seq<string>
    var lineno: nat

    constructor (text: string)
      ensures lines == Lines(text) && lineno == 0
    {
      lines, lineno := Lines(text), 0;
    }

    /** None models the EndOfTextException. */
    method ReadLine() returns (line: Option<string>)
      requires lineno <= |lines|
      modifies `lineno
      ensures if old(lineno) < |lines| then line == Some(lines[old(lineno)]) && lineno == old(lineno) + 1
              else line == None && lineno == old(lineno)
    {
      if lineno >= |lines| {
        return None;
      }
      line := Some(lines[lineno]);
      lineno := lineno + 1;
    }

    method ParseMetaMapping(values: seq<string>) returns (sockets: Option<seq<(int, string)>>)
      ensures sockets == ParseSockets(values)
    {
      var result := [];
      for i := 0 to |values|
        invariant ParseSockets(values[..i]) == Some(result)
      {
        assert values[..i + 1][..i] == values[..i];
        var socket := ParseSocket(values[i]);
        if socket.None? {
          FailedSocketStays(values, i + 1);
          return None;
        }
        result := Assign(result, socket.value.0, socket.value.1);
      }
      assert values[..|values|] == values;
      sockets := Some(result);
    }

    /** Reads one line of sockets. */
    method ReadSockets(key: string) returns (sockets: Option<seq<(int, string)>>)
      requires lineno <= |lines|
      modifies `lineno
      ensures lineno <= |lines|
      ensures if old(lineno) < |lines| then lineno == old(lineno) + 1 && sockets == ParseSocketLine(key, lines[old(lineno)])
              else sockets.None?
    {
      var line := ReadLine();
      if line.None? {
        return None;
      }
      var values := ParseMetaLine(key, line.value);
      if values.None? {
        return None;
      }
      sockets := ParseMetaMapping(values.value);
      if sockets.Some? && !NodesValid(sockets.value) {
        sockets := None;
      }
    }

    method Parse() returns (meta: Option<Meta>)
      requires lineno == 0
      modifies `lineno
      ensures meta == ParseMetaLines(lines)
    {
      var start := ReadLine();
      if start != Some("META_START") {
        return None;
      }
      var nameLine := ReadLine();
      if nameLine.None? {
        return None;
      }
      var name := ParseMetaLine("name", nameLine.value);
      if name.None? || |name.value| != 1 || !IsValidName(Strip(name.value[0])) {
        return None;
      }
      var parameterLine := ReadLine();
      if parameterLine.None? {
        return None;
      }
      var parameters := ParseMetaLine("parameters", parameterLine.value);
      if parameters.None? || !AllValid(parameters.value) {
        return None;
      }
      var csockets := ReadSockets("csockets");
      if csockets.None? {
        return None;
      }
      var eprSockets := ReadSockets("epr_sockets");
      if eprSockets.None? {
        return None;
      }
      var end := ReadLine();
      if end != Some("META_END") {
        return None;
      }
      meta := Some(Meta(Strip(name.value[0]), parameters.value, csockets.value, eprSockets.value));
    }
  }
}
