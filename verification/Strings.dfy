/** The string operations that the printers and parsers use, on ASCII text. */
module Strings {
  import opened Tasks

  predicate IsSpace(c: char) {
    c == ' ' || '\t' <= c <= '\r' || '\U{001C}' <= c <= '\U{001F}'
  }

  predicate IsLetter(c: char) {
    'a' <= c <= 'z' || 'A' <= c <= 'Z'
  }

  predicate IsDigit(c: char) {
    '0' <= c <= '9'
  }

  predicate IsNameChar(c: char) {
    IsLetter(c) || IsDigit(c) || c == '_'
  }

  // ----- stripping -----

  function LStrip(s: string): string {
    if s != [] && IsSpace(s[0]) then LStrip(s[1..]) else s
  }

  function RStrip(s: string): string {
    if s != [] && IsSpace(s[|s| - 1]) then RStrip(s[..|s| - 1]) else s
  }

  function Strip(s: string): string {
    RStrip(LStrip(s))
  }

  /** Starts and ends with something else than a space. */
  predicate Trimmed(s: string) {
    s != [] && !IsSpace(s[0]) && !IsSpace(s[|s| - 1])
  }

  lemma StripTrimmed(s: string)
    requires Trimmed(s)
    ensures Strip(s) == s && Strip(" " + s) == s && Strip(s + " ") == s
  {
    assert (" " + s)[1..] == s;
    assert (s + " ")[..|s|] == s;
    assert LStrip(s + " ") == s + " ";
  }

  lemma {:induction false} StripIndent(s: string, n: nat)
    requires Trimmed(s)
    ensures Strip(seq(n, _ => ' ') + s) == s
  {
    var indent := seq(n, _ => ' ');
    if n == 0 {
      assert indent + s == s;
      StripTrimmed(s);
    } else {
      assert (indent + s)[1..] == seq(n - 1, _ => ' ') + s;
      StripIndent(s, n - 1);
    }
  }

  // ----- splitting and joining -----

  function Split(s: string, c: char): (r: seq<string>)
    ensures |r| >= 1
  {
    if s == [] then [[]]
    else
      var rest := Split(s[1..], c);
      if s[0] == c then [[]] + rest else [[s[0]] + rest[0]] + rest[1..]
  }

  function Join(parts: seq<string>, sep: string): string {
    if parts == [] then []
    else if |parts| == 1 then parts[0]
    else parts[0] + sep + Join(parts[1..], sep)
  }

  function Count(s: string, c: char): nat {
    if s == [] then 0 else (if s[0] == c then 1 else 0) + Count(s[1..], c)
  }

  predicate StartsWith(s: string, prefix: string) {
    |prefix| <= |s| && s[..|prefix|] == prefix
  }

  predicate EndsWith(s: string, suffix: string) {
    |suffix| <= |s| && s[|s| - |suffix|..] == suffix
  }

  lemma {:induction false} SplitNone(s: string, c: char)
    requires c !in s
    ensures Split(s, c) == [s]
  {
    if s != [] {
      assert s[0] in s;
      assert forall x :: x in s[1..] ==> x in s;
      SplitNone(s[1..], c);
      assert [s[0]] + s[1..] == s;
    }
  }

  lemma {:induction false} SplitAt(a: string, c: char, b: string)
    requires c !in a
    ensures Split(a + [c] + b, c) == [a] + Split(b, c)
  {
    var s := a + [c] + b;
    if a == [] {
      assert s[1..] == b;
    } else {
      assert a[0] in a;
      assert forall x :: x in a[1..] ==> x in a;
      assert s[0] == a[0] && s[1..] == a[1..] + [c] + b;
      SplitAt(a[1..], c, b);
      assert [a[0]] + a[1..] == a;
    }
  }

  lemma {:induction false} CountNone(s: string, c: char)
    requires c !in s
    ensures Count(s, c) == 0
  {
    if s != [] {
      assert s[0] in s;
      CountNone(s[1..], c);
    }
  }

  lemma {:induction false} CountConcat(a: string, b: string, c: char)
    ensures Count(a + b, c) == Count(a, c) + Count(b, c)
  {
    if a == [] {
      assert a + b == b;
    } else {
      assert (a + b)[1..] == a[1..] + b;
      CountConcat(a[1..], b, c);
    }
  }

  lemma CountOne(a: string, c: char, b: string)
    requires c !in a && c !in b
    ensures Count(a + [c] + b, c) == 1
  {
    CountNone(a, c);
    CountNone(b, c);
    CountConcat(a + [c], b, c);
    CountConcat(a, [c], c);
    assert Count([c], c) == 1 by { assert [c][1..] == []; }
  }

  function StripAll(parts: seq<string>): (r: seq<string>)
    ensures |r| == |parts| && forall i :: 0 <= i < |parts| ==> r[i] == Strip(parts[i])
  {
    if parts == [] then [] else [Strip(parts[0])] + StripAll(parts[1..])
  }

  lemma LeadingSpace(s: string, c: char)
    requires c != ' '
    ensures StripAll(Split(" " + s, c)) == StripAll(Split(s, c))
  {
    assert (" " + s)[1..] == s;
    var r := Split(s, c);
    assert Split(" " + s, c) == [[' '] + r[0]] + r[1..];
    assert ([' '] + r[0])[1..] == r[0];
    assert Strip([' '] + r[0]) == Strip(r[0]);
  }

  lemma SplitFirst(p: string, c: char, tail: string)
    requires Trimmed(p) && c !in p && c != ' '
    ensures StripAll(Split(p + [c, ' '] + tail, c)) == [p] + StripAll(Split(tail, c))
  {
    LeadingSpace(tail, c);
    SplitAt(p, c, " " + tail);
    assert p + [c, ' '] + tail == p + [c] + (" " + tail);
    StripTrimmed(p);
    var rest := Split(" " + tail, c);
    assert ([p] + rest)[1..] == rest;
  }

  lemma SplitOnly(p: string, c: char)
    requires Trimmed(p) && c !in p
    ensures StripAll(Split(p, c)) == [p]
  {
    SplitNone(p, c);
    StripTrimmed(p);
    assert [p][1..] == [];
  }

  /** Splitting at a separator and stripping the parts undoes joining with the separator
      and a space. */
  lemma {:induction false} SplitJoin(parts: seq<string>, c: char)
    requires parts != [] && c != ' ' && forall p :: p in parts ==> Trimmed(p) && c !in p
    ensures StripAll(Split(Join(parts, [c, ' ']), c)) == parts
  {
    var p := parts[0];
    assert p in parts;
    if |parts| == 1 {
      SplitOnly(p, c);
      assert parts == [p];
    } else {
      var rest := parts[1..];
      forall q | q in rest ensures Trimmed(q) && c !in q {
        assert q in parts;
      }
      SplitJoin(rest, c);
      SplitFirst(p, c, Join(rest, [c, ' ']));
      assert [p] + rest == parts;
    }
  }

  // ----- lines -----

  function NonEmpty(lines: seq<string>): seq<string> {
    if lines == [] then []
    else (if lines[0] == [] then [] else [lines[0]]) + NonEmpty(lines[1..])
  }

  /** The stripped non-empty lines of a text. */
  function Lines(text: string): seq<string> {
    NonEmpty(StripAll(Split(text, '\n')))
  }

  lemma {:induction false} SplitConcat(a: string, c: char, b: string)
    ensures Split(a + [c] + b, c) == Split(a, c) + Split(b, c)
  {
    var s := a + [c] + b;
    if a == [] {
      assert s[1..] == b;
    } else {
      assert s[0] == a[0] && s[1..] == a[1..] + [c] + b;
      SplitConcat(a[1..], c, b);
    }
  }

  lemma {:induction false} StripAllConcat(a: seq<string>, b: seq<string>)
    ensures StripAll(a + b) == StripAll(a) + StripAll(b)
  {
    if a == [] {
      assert a + b == b;
    } else {
      assert (a + b)[1..] == a[1..] + b;
      StripAllConcat(a[1..], b);
    }
  }

  lemma {:induction false} NonEmptyConcat(a: seq<string>, b: seq<string>)
    ensures NonEmpty(a + b) == NonEmpty(a) + NonEmpty(b)
  {
    if a == [] {
      assert a + b == b;
    } else {
      assert (a + b)[1..] == a[1..] + b;
      NonEmptyConcat(a[1..], b);
    }
  }

  /** A line break separates the lines of the two parts. */
  lemma LinesConcat(a: string, b: string)
    ensures Lines(a + "\n" + b) == Lines(a) + Lines(b)
  {
    SplitConcat(a, '\n', b);
    StripAllConcat(Split(a, '\n'), Split(b, '\n'));
    NonEmptyConcat(StripAll(Split(a, '\n')), StripAll(Split(b, '\n')));
  }

  lemma OneLine(line: string)
    requires '\n' !in line
    ensures Lines(line) == if Strip(line) == [] then [] else [Strip(line)]
  {
    SplitNone(line, '\n');
    var stripped := [Strip(line)];
    assert StripAll([line]) == stripped;
    assert stripped[1..] == [];
    assert NonEmpty(stripped) == if Strip(line) == [] then [] else stripped;
  }

  // ----- numbers -----

  function Digit(n: nat): char
    requires n < 10
  {
    '0' + n as char
  }

  function DigitValue(c: char): nat
    requires IsDigit(c)
  {
    (c - '0') as int
  }

  function Digits(n: nat): (r: string)
    ensures r != [] && forall c :: c in r ==> IsDigit(c)
  {
    if n < 10 then [Digit(n)] else Digits(n / 10) + [Digit(n % 10)]
  }

  /** `str` of an integer. */
  function Decimal(n: int): (r: string)
    ensures r != [] && forall c :: c in r ==> IsDigit(c) || c == '-'
  {
    if n < 0 then "-" + Digits(-n) else Digits(n)
  }

  /** Digits, with single underscores between them. */
  predicate IsNumeral(s: string) {
    && s != [] && IsDigit(s[0]) && IsDigit(s[|s| - 1])
    && forall i :: 0 <= i < |s| ==>
         IsDigit(s[i]) || (s[i] == '_' && 0 < i && IsDigit(s[i - 1]))
  }

  function NumeralValue(s: string): nat {
    if s == [] then 0
    else
      var front := NumeralValue(s[..|s| - 1]);
      var c := s[|s| - 1];
      if IsDigit(c) then 10 * front + DigitValue(c) else front
  }

  /** `int` of a string; None models the ValueError. */
  function ParseInt(text: string): Option<int> {
    var s := Strip(text);
    if s != [] && (s[0] == '-' || s[0] == '+') then
      if IsNumeral(s[1..]) then Some(if s[0] == '-' then 0 - NumeralValue(s[1..]) as int else NumeralValue(s[1..]) as int) else None
    else if IsNumeral(s) then Some(NumeralValue(s))
    else None
  }

  lemma {:induction false} DigitsValue(n: nat)
    ensures NumeralValue(Digits(n)) == n
  {
    if n < 10 {
      assert [Digit(n)][..0] == [];
    } else {
      DigitsValue(n / 10);
      assert Digits(n)[..|Digits(n)| - 1] == Digits(n / 10);
    }
  }

  lemma NumbersAreTrimmed(n: int)
    ensures Trimmed(Decimal(n))
  {
    var s := Decimal(n);
    assert s[0] in s && s[|s| - 1] in s;
  }

  lemma DigitsAreNumeral(n: nat)
    ensures IsNumeral(Digits(n))
  {
    var s := Digits(n);
    forall i | 0 <= i < |s| ensures IsDigit(s[i]) {
      assert s[i] in s;
    }
  }

  lemma ParsesNumeral(s: string)
    requires Trimmed(s) && IsNumeral(s)
    ensures ParseInt(s) == Some(NumeralValue(s))
  {
    StripTrimmed(s);
  }

  lemma ParsesNegative(s: string, digits: string)
    requires Trimmed(s) && s == "-" + digits && IsNumeral(digits)
    ensures ParseInt(s) == Some(0 - NumeralValue(digits))
  {
    StripTrimmed(s);
    assert s[1..] == digits;
  }

  lemma PrintedDigits(n: nat, digits: string)
    requires digits == Digits(n)
    ensures IsNumeral(digits) && NumeralValue(digits) == n
  {
    DigitsAreNumeral(n);
    DigitsValue(n);
  }

  lemma DecimalIs(n: int, digits: string)
    requires digits == Digits(if n < 0 then -n else n)
    ensures Decimal(n) == if n < 0 then "-" + digits else digits
  {
  }

  lemma DecimalRoundTrip(n: int, s: string, digits: string)
    requires Trimmed(s) && IsNumeral(digits) && NumeralValue(digits) == (if n < 0 then -n else n)
    requires s == if n < 0 then "-" + digits else digits
    ensures ParseInt(s) == Some(n)
  {
    if n < 0 {
      ParsesNegative(s, digits);
    } else {
      ParsesNumeral(s);
    }
  }

  /** Reading a printed number gives the number back. */
  lemma NumberRoundTrip(n: int)
    ensures ParseInt(Decimal(n)) == Some(n)
  {
    var digits := Digits(if n < 0 then -n else n);
    NumbersAreTrimmed(n);
    PrintedDigits(if n < 0 then -n else n, digits);
    DecimalIs(n, digits);
    DecimalRoundTrip(n, Decimal(n), digits);
  }
}
