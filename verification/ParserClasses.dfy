/** The parser classes (qoala/lang/parse.py:226-622): a cursor over lines, and the vectors
    that were defined so far, shared by the parsers of all blocks. */
module ParserClasses {
  import opened Tasks
  import opened Strings
  import opened HostLang
  import opened HostParser

  lemma {:induction false} FailedLineStays(lines: seq<string>, defined: Vectors, n: nat)
    requires n <= |lines| && ParseLines(lines[..n], defined).None?
    ensures ParseLines(lines, defined).None?
    decreases |lines| - n
  {
    if n == |lines| {
      assert lines[..n] == lines;
    } else {
      assert lines[..n + 1][..n] == lines[..n];
      FailedLineStays(lines, defined, n + 1);
    }
  }

  lemma NextLine(lines: seq<string>, defined: Vectors, n: nat, ops: seq<Op>, between: Vectors)
    requires n < |lines| && ParseLines(lines[..n], defined) == Some((ops, between))
    ensures ParseLines(lines[..n + 1], defined) ==
            var last := ParseLine(lines[n], between);
            if last.None? then None else Some((ops + [last.value.0], last.value.1))
  {
    assert lines[..n + 1][..n] == lines[..n];
  }

  class InstrParser {
    const lines: seq<string>
    var lineno: nat
    var defined: Vectors

    constructor (text: string, defined: Vectors)
      ensures lines == Lines(text) && lineno == 0 && this.defined == defined
    {
      lines, lineno, this.defined := Lines(text), 0, defined;
    }

    /** None models the EndOfTextException. */
    method ReadLine() returns (line: Option<string>)
      requires lineno <= |lines|
      modifies `lineno
      ensures if old(lineno) < |lines| then line == Some(lines[old(lineno)]) && lineno == old(lineno) + 1
              else line == None && lineno == old(lineno)
    {
      if lineno >= |lines| {
        return None;
      }
      line := Some(lines[lineno]);
      lineno := lineno + 1;
    }

    /** `op` is None for a parse error. */
    method ParseLhr(line: string) returns (op: Option<Op>)
      modifies `defined
      ensures var parsed := ParseLine(line, old(defined));
              if parsed.None? then op.None? else op == Some(parsed.value.0) && defined == parsed.value.1
    {
      var parts := StripAll(Split(line, '='));
      if |parts| > 2 {
        return None;
      }
      var result: Option<Var> := None;
      if |parts| == 2 {
        result := ParseVar(parts[0], true, defined);
        if result.None? {
          return None;
        }
        if result.value.VectorVar? {
          defined := defined[result.value.name := result.value.size];
        }
      }
      op := ParseRight(parts[|parts| - 1], result, defined);
    }

    method Parse() returns (ops: Option<seq<Op>>)
      requires lineno == 0
      modifies this
      ensures var parsed := ParseLines(lines, old(defined));
              if parsed.None? then ops.None? else ops == Some(parsed.value.0) && defined == parsed.value.1
    {
      var instructions := [];
      ghost var first := defined;
      while lineno < |lines|
        invariant lineno <= |lines| && ParseLines(lines[..lineno], first) == Some((instructions, defined))
        decreases |lines| - lineno
      {
        var ok;
        ok, instructions := ParseNext(instructions, first);
        if !ok {
          return None;
        }
      }
      assert lines[..lineno] == lines;
      ops := Some(instructions);
    }

    /** One round of the loop of `parse`. */
    method ParseNext(instructions: seq<Op>, ghost first: Vectors) returns (ok: bool, more: seq<Op>)
      requires lineno < |lines| && ParseLines(lines[..lineno], first) == Some((instructions, defined))
      modifies this
      ensures ok ==> lineno == old(lineno) + 1 && ParseLines(lines[..lineno], first) == Some((more, defined))
      ensures !ok ==> ParseLines(lines, first).None?
    {
      NextLine(lines, first, lineno, instructions, defined);
      var line := ReadLine();
      var op := ParseLhr(line.value);
      if op.None? {
        FailedLineStays(lines, first, lineno);
        return false, instructions;
      }
      ok, more := true, instructions + [op.value];
    }
  }

  // ----- dividing the lines into blocks -----

  /** The positions of the header lines. */
  function Starts(lines: seq<string>, offset: nat): (r: seq<nat>)
    ensures forall i :: 0 <= i < |r| ==> offset <= r[i] < offset + |lines|
  {
    if lines == [] then []
    else (if IsHeader(lines[0]) then [offset] else []) + Starts(lines[1..], offset + 1)
  }

  function End(starts: seq<nat>, i: nat, length: nat): nat {
    if i + 1 < |starts| then starts[i + 1] else length
  }

  lemma {:induction false} SkipBody(lines: seq<string>, k: nat, n: nat)
    requires k + n <= |lines| && forall i :: k <= i < k + n ==> !IsHeader(lines[i])
    ensures Starts(lines[k..], k) == Starts(lines[k + n..], k + n)
    decreases n
  {
    if n > 0 {
      assert lines[k..][1..] == lines[k + 1..];
      SkipBody(lines, k + 1, n - 1);
    }
  }

  ghost predicate IsCut(lines: seq<string>, starts: seq<nat>, groups: seq<seq<string>>, i: nat) {
    && |groups| == |starts|
    && (i < |starts| ==>
          starts[i] <= End(starts, i, |lines|) <= |lines| && groups[i] == lines[starts[i]..End(starts, i, |lines|)])
  }

  predicate StartsAt(starts: seq<nat>, k: nat, length: nat) {
    if k < length then starts != [] && starts[0] == k else starts == []
  }

  lemma ConsCut(lines: seq<string>, k: nat, end: nat, starts: seq<nat>, groups: seq<seq<string>>, i: nat, j: nat)
    requires k <= end <= |lines| && StartsAt(starts, end, |lines|)
    requires (i > 0 ==> j == i - 1) && IsCut(lines, starts, groups, j)
    ensures IsCut(lines, [k] + starts, [lines[k..end]] + groups, i)
  {
  }

  lemma GroupOf(lines: seq<string>, n: nat)
    requires lines != [] && IsHeader(lines[0]) && n == 1 + BodyLength(lines[1..])
    ensures n <= |lines| && BlockGroups(lines) == [lines[..n]] + BlockGroups(lines[n..])
  {
  }

  lemma SlicesOf(lines: seq<string>, k: nat, n: nat)
    requires k + n <= |lines|
    ensures lines[k..][..n] == lines[k..k + n] && lines[k..][n..] == lines[k + n..]
  {
  }

  /** The group of a header: its body has `n - 1` lines. */
  lemma BodyOf(lines: seq<string>, k: nat) returns (n: nat)
    requires k < |lines|
    ensures n == 1 + BodyLength(lines[k..][1..]) && k + n <= |lines|
    ensures k + n < |lines| ==> IsHeader(lines[k + n])
    ensures forall i :: k + 1 <= i < k + n ==> !IsHeader(lines[i])
  {
    var body := lines[k + 1..];
    assert lines[k..][1..] == body;
    n := 1 + BodyLength(body);
    forall i | k + 1 <= i < k + n ensures !IsHeader(lines[i]) {
      assert lines[i] == body[i - k - 1];
    }
    assert k + n < |lines| ==> lines[k + n] == body[n - 1];
  }

  lemma StartsNext(lines: seq<string>, k: nat)
    requires k < |lines|
    ensures Starts(lines[k..], k) == (if IsHeader(lines[k]) then [k] else []) + Starts(lines[k + 1..], k + 1)
  {
    assert lines[k..][1..] == lines[k + 1..];
  }

  /** `starts` are the headers before line `k`. */
  ghost predicate StartsBefore(lines: seq<string>, k: nat, starts: seq<nat>)
    requires k <= |lines|
  {
    starts + Starts(lines[k..], k) == Starts(lines, 0)
  }

  lemma StartsOnward(lines: seq<string>, k: nat, starts: seq<nat>)
    requires k < |lines| && StartsBefore(lines, k, starts)
    ensures StartsBefore(lines, k + 1, if IsHeader(lines[k]) then starts + [k] else starts)
  {
    StartsNext(lines, k);
    var rest := Starts(lines[k + 1..], k + 1);
    assert starts + ([k] + rest) == (starts + [k]) + rest;
    assert starts + ([] + rest) == starts + rest;
  }

  lemma StartsAtBegin(lines: seq<string>)
    ensures StartsBefore(lines, 0, [])
  {
    assert lines[0..] == lines && [] + Starts(lines, 0) == Starts(lines, 0);
  }

  lemma StartsAtEnd(lines: seq<string>, starts: seq<nat>)
    requires StartsBefore(lines, |lines|, starts)
    ensures starts == Starts(lines, 0)
  {
    assert lines[|lines|..] == [] && starts + [] == starts;
  }

  lemma GroupStep(lines: seq<string>, k: nat, n: nat, groups: seq<seq<string>>)
    requires k < |lines| && IsHeader(lines[k]) && n == 1 + BodyLength(lines[k..][1..]) && k + n <= |lines|
    requires groups == BlockGroups(lines[k + n..])
    ensures BlockGroups(lines[k..]) == [lines[k..k + n]] + groups
  {
    GroupOf(lines[k..], n);
    SlicesOf(lines, k, n);
  }

  lemma StartStep(lines: seq<string>, k: nat, n: nat, starts: seq<nat>)
    requires k < |lines| && IsHeader(lines[k]) && 0 < n && k + n <= |lines|
    requires (forall i :: k + 1 <= i < k + n ==> !IsHeader(lines[i])) && starts == Starts(lines[k + n..], k + n)
    ensures Starts(lines[k..], k) == [k] + starts
  {
    StartsNext(lines, k);
    SkipBody(lines, k + 1, n - 1);
  }

  lemma OtherLine(lines: seq<string>, k: nat)
    requires k < |lines| && !IsHeader(lines[k])
    ensures BlockGroups(lines[k..]) == BlockGroups(lines[k + 1..])
    ensures Starts(lines[k..], k) == Starts(lines[k + 1..], k + 1)
  {
    assert lines[k..][1..] == lines[k + 1..];
  }

  lemma NoLines(lines: seq<string>, i: nat)
    ensures IsCut(lines, Starts(lines[|lines|..], |lines|), BlockGroups(lines[|lines|..]), i)
  {
    assert lines[|lines|..] == [];
  }

  ghost predicate CutAt(lines: seq<string>, k: nat, i: nat)
    requires k <= |lines|
  {
    IsCut(lines, Starts(lines[k..], k), BlockGroups(lines[k..]), i)
  }

  lemma HeaderCut(lines: seq<string>, k: nat, n: nat, i: nat, j: nat, starts: seq<nat>, groups: seq<seq<string>>)
    requires 0 < n && k + n <= |lines| && StartsAt(starts, k + n, |lines|)
    requires Starts(lines[k..], k) == [k] + starts && BlockGroups(lines[k..]) == [lines[k..k + n]] + groups
    requires (i > 0 ==> j == i - 1) && IsCut(lines, starts, groups, j)
    ensures CutAt(lines, k, i)
  {
    ConsCut(lines, k, k + n, starts, groups, i, j);
  }

  lemma HeaderCase(lines: seq<string>, k: nat, n: nat, i: nat, j: nat, starts: seq<nat>, groups: seq<seq<string>>)
    requires k < |lines| && IsHeader(lines[k]) && n == 1 + BodyLength(lines[k..][1..]) && k + n <= |lines|
    requires (k + n < |lines| ==> IsHeader(lines[k + n])) && forall l :: k + 1 <= l < k + n ==> !IsHeader(lines[l])
    requires starts == Starts(lines[k + n..], k + n) && groups == BlockGroups(lines[k + n..])
    requires (i > 0 ==> j == i - 1) && IsCut(lines, starts, groups, j)
    ensures CutAt(lines, k, i)
  {
    FirstStart(lines, k + n);
    GroupStep(lines, k, n, groups);
    StartStep(lines, k, n, starts);
    HeaderCut(lines, k, n, i, j, starts, groups);
  }

  /** Cutting the lines at the headers gives the groups. */
  lemma {:induction false} CutsAreGroups(lines: seq<string>, k: nat, i: nat)
    requires k <= |lines|
    ensures CutAt(lines, k, i)
    decreases |lines| - k
  {
    if k == |lines| {
      NoLines(lines, i);
    } else if !IsHeader(lines[k]) {
      OtherLine(lines, k);
      CutsAreGroups(lines, k + 1, i);
    } else {
      var n := BodyOf(lines, k);
      var j := if i > 0 then i - 1 else 0;
      CutsAreGroups(lines, k + n, j);
      HeaderCase(lines, k, n, i, j, Starts(lines[k + n..], k + n), BlockGroups(lines[k + n..]));
    }
  }

  lemma FirstStart(lines: seq<string>, k: nat)
    requires k <= |lines| && (k < |lines| ==> IsHeader(lines[k]))
    ensures StartsAt(Starts(lines[k..], k), k, |lines|)
  {
  }

  class HostCodeParser {
    const lines: seq<string>
    var defined: Vectors

    constructor (text: string)
      ensures lines == Lines(text) && defined == map[]
    {
      lines, defined := Lines(text), map[];
    }

    method GetBlockStarts() returns (starts: seq<nat>)
      ensures starts == Starts(lines, 0)
    {
      starts := [];
      StartsAtBegin(lines);
      for i := 0 to |lines|
        invariant StartsBefore(lines, i, starts)
      {
        StartsOnward(lines, i, starts);
        if IsHeader(lines[i]) {
          starts := starts + [i];
        }
      }
      StartsAtEnd(lines, starts);
    }

    /** None if there is no block. */
    method GetBlockTexts() returns (texts: Option<seq<string>>)
      ensures var groups := BlockGroups(lines);
              if groups == [] then texts.None?
              else texts.Some? && |texts.value| == |groups|
                   && forall i :: 0 <= i < |groups| ==> texts.value[i] == Join(groups[i], "\n")
    {
      var starts := GetBlockStarts();
      assert lines[0..] == lines;
      CutsAreGroups(lines, 0, 0);
      if |starts| == 0 {
        return None;
      }
      var result := [];
      for i := 0 to |starts|
        invariant |result| == i && forall j :: 0 <= j < i ==> result[j] == Join(BlockGroups(lines)[j], "\n")
      {
        CutsAreGroups(lines, 0, i);
        result := result + [Join(lines[starts[i]..End(starts, i, |lines|)], "\n")];
      }
      texts := Some(result);
    }

    method ParseBlockText(text: string) returns (b: Option<Block>)
      modifies `defined
      ensures var parsed := ParseBlock(text, old(defined));
              if parsed.None? then b.None? else b == Some(parsed.value.0) && defined == parsed.value.1
    {
      var blockLines := Lines(text);
      if |blockLines| == 0 {
        return None;
      }
      var header := ParseHeader(blockLines[0]);
      if header.None? {
        return None;
      }
      var parser := new InstrParser(Join(blockLines[1..], "\n"), defined);
      var ops := parser.Parse();
      if ops.None? {
        return None;
      }
      defined := parser.defined;
      b := Some(Block(header.value.0, header.value.1, ops.value, header.value.2));
    }

    method Parse() returns (blocks: Option<seq<Block>>)
      requires defined == map[]
      modifies this
      ensures blocks == if BlockGroups(lines) == [] then None
                        else if ParseGroups(BlockGroups(lines), map[]).None? then None
                        else Some(ParseGroups(BlockGroups(lines), map[]).value.0)
    {
      ghost var groups := BlockGroups(lines);
      var texts := GetBlockTexts();
      if texts.None? {
        return None;
      }
      var result := [];
      for i := 0 to |texts.value|
        invariant ParseGroups(groups[..i], map[]) == Some((result, defined))
      {
        var ok;
        ok, result := ParseNextBlock(texts.value[i], result, groups, i);
        if !ok {
          return None;
        }
      }
      assert groups[..|groups|] == groups;
      blocks := Some(result);
    }

    method ParseNextBlock(text: string, blocks: seq<Block>, ghost groups: seq<seq<string>>, ghost i: nat)
      returns (ok: bool, more: seq<Block>)
      requires i < |groups| && text == Join(groups[i], "\n")
      requires ParseGroups(groups[..i], map[]) == Some((blocks, defined))
      modifies this
      ensures ok ==> ParseGroups(groups[..i + 1], map[]) == Some((more, defined))
      ensures !ok ==> ParseGroups(groups, map[]).None?
    {
      NextGroup(groups, i, blocks, defined);
      var b := ParseBlockText(text);
      if b.None? {
        FailedGroupStays(groups, i + 1);
        return false, blocks;
      }
      ok, more := true, blocks + [b.value];
    }
  }

  lemma NextGroup(groups: seq<seq<string>>, n: nat, blocks: seq<Block>, between: Vectors)
    requires n < |groups| && ParseGroups(groups[..n], map[]) == Some((blocks, between))
    ensures ParseGroups(groups[..n + 1], map[]) ==
            var last := ParseBlock(Join(groups[n], "\n"), between);
            if last.None? then None else Some((blocks + [last.value.0], last.value.1))
  {
    assert groups[..n + 1][..n] == groups[..n];
  }

  lemma {:induction false} FailedGroupStays(groups: seq<seq<string>>, n: nat)
    requires n <= |groups| && ParseGroups(groups[..n], map[]).None?
    ensures ParseGroups(groups, map[]).None?
    decreases |groups| - n
  {
    if n == |groups| {
      assert groups[..n] == groups;
    } else {
      assert groups[..n + 1][..n] == groups[..n];
      FailedGroupStays(groups, n + 1);
    }
  }
}
