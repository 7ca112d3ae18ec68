/** Repeating network time bins (qoala/lang/ehi.py:510-566). Times are integers. */
module NetworkSchedule {
  import opened Tasks

  datatype Timebin = Timebin(nodes: set<int>, pids: map<int, int>)

  datatype Schedule = Schedule(binLength: int, firstBin: int, pattern: seq<Timebin>, period: int) {
    /** Zero lengths raise ZeroDivisionError. */
    predicate Divisible() {
      binLength > 0 && period > 0
    }

    /** The pattern has a bin and fits in one period. */
    predicate Fits() {
      Divisible() && |pattern| >= 1 && |pattern| * binLength <= period
    }
  }

  function Ceil(a: int, b: int): int
    requires b > 0
  {
    -((-a) / b)
  }

  /** Indexing with Python's negative indices; None models IndexError. */
  function At(pattern: seq<Timebin>, i: int): Option<Timebin> {
    if 0 <= i < |pattern| then Some(pattern[i])
    else if -|pattern| <= i < 0 then Some(pattern[i + |pattern|])
    else None
  }

  /** The offset of the current repetition, and the time since it started as computed by
      both methods: the first bin is subtracted a second time here. */
  function PatternStart(s: Schedule, time: int): int
    requires s.Divisible()
  {
    (time - s.firstBin) / s.period * s.period + s.firstBin
  }

  function SinceStart(s: Schedule, time: int): int
    requires s.Divisible()
  {
    time - s.firstBin - PatternStart(s, time)
  }

  function NextBin(s: Schedule, time: int): Option<(int, Timebin)>
    requires s.Divisible()
  {
    var index := Ceil(SinceStart(s, time), s.binLength);
    var wraps := index >= |s.pattern|;
    var bin := At(s.pattern, if wraps then 0 else index);
    if bin.None? then None
    else if wraps then Some((PatternStart(s, time) + s.period, bin.value))
    else Some((index * s.binLength + PatternStart(s, time), bin.value))
  }

  /** The last index of `bin` in the pattern, or None. */
  function LastIndex(pattern: seq<Timebin>, bin: Timebin): (r: Option<nat>)
    ensures r.None? ==> bin !in pattern
    ensures r.Some? ==> r.value < |pattern| && pattern[r.value] == bin
    ensures r.Some? ==> forall i :: r.value < i < |pattern| ==> pattern[i] != bin
  {
    if |pattern| == 0 then None
    else if pattern[|pattern| - 1] == bin then Some(|pattern| - 1)
    else LastIndex(pattern[..|pattern| - 1], bin)
  }

  function NextSpecificBin(s: Schedule, time: int, bin: Timebin): Option<int>
    requires s.Divisible()
  {
    var index := LastIndex(s.pattern, bin);
    if index.None? then None
    else
      var rel := index.value * s.binLength;
      var since := SinceStart(s, time);
      Some(if rel >= since then rel - since else s.period - since + rel)
  }

  /** The method: a scan that keeps the last match; None models ValueError. */
  method FindSpecificBin(s: Schedule, time: int, bin: Timebin) returns (wait: Option<int>)
    requires s.Divisible()
    ensures wait == NextSpecificBin(s, time, bin)
  {
    var binIndex: Option<nat> := None;
    for i := 0 to |s.pattern|
      invariant binIndex == LastIndex(s.pattern[..i], bin)
    {
      assert s.pattern[..i + 1][..i] == s.pattern[..i];
      if bin == s.pattern[i] {
        binIndex := Some(i);
      }
    }
    assert s.pattern[..|s.pattern|] == s.pattern;
    if binIndex.None? {
      return None;
    }
    var rel := binIndex.value * s.binLength;
    var globalOffset := time - s.firstBin;
    var patternIndex := globalOffset / s.period;
    var patternStart := patternIndex * s.period + s.firstBin;
    var since := globalOffset - patternStart;
    if rel >= since {
      wait := Some(rel - since);
    } else {
      wait := Some(s.period - since + rel);
    }
  }

  // ----- the calendar the schedule stands for -----

  /** The bin that starts exactly at `time`, if any: bin k of the pattern starts at
      `firstBin + n * period + k * binLength` for every n. */
  function BinAt(s: Schedule, time: int): Option<Timebin>
    requires s.Divisible()
  {
    var r := (time - s.firstBin) % s.period;
    if r % s.binLength == 0 && r / s.binLength < |s.pattern| then Some(s.pattern[r / s.binLength]) else None
  }

  /** `next` is the first bin that starts at or after `time`. */
  ghost predicate IsNextBin(s: Schedule, time: int, next: Option<(int, Timebin)>)
    requires s.Divisible()
  {
    && next.Some? && next.value.0 >= time
    && BinAt(s, next.value.0) == Some(next.value.1)
    && forall x :: time <= x < next.value.0 ==> BinAt(s, x) == None
  }

  /** `wait` is the least time after which `bin` starts. */
  ghost predicate IsLeastWait(s: Schedule, time: int, bin: Timebin, wait: Option<int>)
    requires s.Divisible()
  {
    && wait.Some? && wait.value >= 0
    && BinAt(s, time + wait.value) == Some(bin)
    && forall x :: time <= x < time + wait.value ==> BinAt(s, x) != Some(bin)
  }

  // ----- arithmetic -----

  lemma MulAtLeast(k: int, p: int)
    requires k >= 1 && p > 0
    ensures k * p >= p
  {
  }

  lemma DivModUnique(x: int, p: int, q: int, r: int)
    requires p > 0 && x == q * p + r && 0 <= r < p
    ensures x / p == q && x % p == r
  {
    var q' := x / p;
    var r' := x % p;
    assert x == q' * p + r';
    assert (q - q') * p == r' - r;
    assert (q' - q) * p == r - r';
    if q > q' {
      MulAtLeast(q - q', p);
    } else if q < q' {
      MulAtLeast(q' - q, p);
    }
  }

  /** The time within the repetition. */
  function Phase(s: Schedule, time: int): (r: int)
    requires s.Divisible()
    ensures 0 <= r < s.period
  {
    (time - s.firstBin) % s.period
  }

  lemma SinceStartIsPhase(s: Schedule, time: int)
    requires s.Divisible()
    ensures SinceStart(s, time) == Phase(s, time) - s.firstBin
    ensures PatternStart(s, time) == time - Phase(s, time)
  {
    var o := time - s.firstBin;
    assert o == o / s.period * s.period + o % s.period;
  }

  /** Moving on within the repetition, or into the next one. */
  lemma PhaseAfter(s: Schedule, time: int, d: int)
    requires s.Divisible() && 0 <= Phase(s, time) + d < 2 * s.period
    ensures Phase(s, time + d) == if Phase(s, time) + d < s.period then Phase(s, time) + d
                                  else Phase(s, time) + d - s.period
  {
    var o := time - s.firstBin;
    var q := o / s.period;
    var r := o % s.period;
    assert o == q * s.period + r;
    if r + d < s.period {
      DivModUnique(o + d, s.period, q, r + d);
    } else {
      assert o + d == (q + 1) * s.period + (r + d - s.period);
      DivModUnique(o + d, s.period, q + 1, r + d - s.period);
    }
  }

  /** Bin k starts at phase k * binLength, and phases between bin starts start no bin. */
  lemma BinPhase(s: Schedule, time: int, k: nat)
    requires s.Fits() && k < |s.pattern|
    requires Phase(s, time) == k * s.binLength
    ensures BinAt(s, time) == Some(s.pattern[k])
  {
    DivModUnique(k * s.binLength, s.binLength, k, 0);
  }

  lemma BinAtPhase(s: Schedule, time: int) returns (k: nat)
    requires s.Divisible() && BinAt(s, time).Some?
    ensures k < |s.pattern| && Phase(s, time) == k * s.binLength && BinAt(s, time) == Some(s.pattern[k])
  {
    var r := Phase(s, time);
    k := r / s.binLength;
    assert r == r / s.binLength * s.binLength + r % s.binLength;
  }

  lemma PatternEnds(s: Schedule, k: nat)
    requires s.Fits() && k < |s.pattern|
    ensures 0 <= k * s.binLength <= s.period - s.binLength
  {
    assert (k + 1) * s.binLength <= |s.pattern| * s.binLength by {
      MulMonotone(k + 1, |s.pattern|, s.binLength);
    }
  }

  lemma MulMonotone(a: int, b: int, c: int)
    requires a <= b && c >= 0
    ensures a * c <= b * c
  {
  }

  lemma CeilBounds(a: int, b: int)
    requires b > 0
    ensures a <= Ceil(a, b) * b < a + b
  {
    var q := (-a) / b;
    assert -a == q * b + (-a) % b;
    assert Ceil(a, b) * b == -(q * b);
  }

  // ----- next_bin -----

  /** A bin that starts at or after phase `r` has at least the rounded-up index. */
  lemma LaterBin(r: int, k: int, length: int)
    requires length > 0 && k * length >= r
    ensures k >= Ceil(r, length)
  {
    CeilBounds(r, length);
    if k < Ceil(r, length) {
      MulMonotone(k + 1, Ceil(r, length), length);
    }
  }

  lemma NoBinBefore(s: Schedule, time: int, x: int, end: int)
    requires s.Fits() && time <= x && Phase(s, time) + (x - time) < end
    requires end == if Ceil(Phase(s, time), s.binLength) < |s.pattern|
                    then Ceil(Phase(s, time), s.binLength) * s.binLength else s.period
    requires end <= s.period
    ensures BinAt(s, x) == None
  {
    PhaseAfter(s, time, x - time);
    if BinAt(s, x).Some? {
      var k := BinAtPhase(s, x);
      LaterBin(Phase(s, time), k, s.binLength);
      MulMonotone(Ceil(Phase(s, time), s.binLength), k, s.binLength);
    }
  }

  /** With the first bin at time zero, `next_bin` is the least bin start at or after `time`. */
  lemma NextBinIsNext(s: Schedule, time: int)
    requires s.Fits() && s.firstBin == 0
    ensures IsNextBin(s, time, NextBin(s, time))
  {
    SinceStartIsPhase(s, time);
    var r := Phase(s, time);
    var index := Ceil(r, s.binLength);
    CeilBounds(r, s.binLength);
    assert index >= 0 by {
      if index < 0 {
        MulMonotone(index, -1, s.binLength);
      }
    }
    var end := if index < |s.pattern| then index * s.binLength else s.period;
    if index < |s.pattern| {
      PatternEnds(s, index);
    }
    PhaseAfter(s, time, end - r);
    BinPhase(s, time + end - r, if index < |s.pattern| then index else 0);
    forall x | time <= x < time + end - r ensures BinAt(s, x) == None {
      NoBinBefore(s, time, x, end);
    }
  }

  lemma NextBinWrongForNegativeFirstBin(s: Schedule)
    requires s.Fits() && s.firstBin < 0
    ensures !IsNextBin(s, s.firstBin, NextBin(s, s.firstBin))
  {
    var f := s.firstBin;
    SinceStartIsPhase(s, f);
    BinPhase(s, f, 0);
    CeilBounds(-f, s.binLength);
    assert BinAt(s, f).Some?;
  }

  lemma CeilIsNegative(a: int, b: int)
    requires b > 0 && a <= -b
    ensures Ceil(a, b) < 0 && Ceil(a, b) * b < 0
  {
    CeilBounds(a, b);
    if Ceil(a, b) >= 0 {
      MulMonotone(0, Ceil(a, b), b);
    }
  }

  lemma NextBinWrongForLateFirstBin(s: Schedule)
    requires s.Fits() && s.firstBin >= s.binLength
    ensures !IsNextBin(s, s.firstBin, NextBin(s, s.firstBin))
  {
    var f := s.firstBin;
    DivModUnique(0, s.period, 0, 0);
    SinceStartIsPhase(s, f);
    assert SinceStart(s, f) == -f && PatternStart(s, f) == f;
    CeilIsNegative(-f, s.binLength);
  }

  lemma NextBinWrongForEarlyFirstBin(s: Schedule)
    requires s.Fits() && 0 < s.firstBin < s.binLength
    ensures !IsNextBin(s, s.firstBin + 1, NextBin(s, s.firstBin + 1))
  {
    var f := s.firstBin;
    PatternEnds(s, 0);
    DivModUnique(1, s.period, 0, 1);
    SinceStartIsPhase(s, f + 1);
    CeilIsZero(1 - f, s.binLength);
  }

  lemma CeilIsZero(a: int, b: int)
    requires b > 0 && -b < a <= 0
    ensures Ceil(a, b) == 0
  {
    DivModUnique(-a, b, 0, -a);
  }

  /** `next_bin` is right at every time exactly for the schedules that start at zero. */
  lemma NextBinRightIffFirstBinZero(s: Schedule)
    requires s.Fits()
    ensures (forall t :: IsNextBin(s, t, NextBin(s, t))) <==> s.firstBin == 0
  {
    if s.firstBin == 0 {
      forall t ensures IsNextBin(s, t, NextBin(s, t)) {
        NextBinIsNext(s, t);
      }
    } else if s.firstBin < 0 {
      NextBinWrongForNegativeFirstBin(s);
    } else if s.firstBin >= s.binLength {
      NextBinWrongForLateFirstBin(s);
    } else {
      NextBinWrongForEarlyFirstBin(s);
    }
  }

  // ----- next_specific_bin -----

  ghost predicate Once(pattern: seq<Timebin>, bin: Timebin) {
    bin in pattern && forall i, j :: 0 <= i < j < |pattern| ==> pattern[i] != bin || pattern[j] != bin
  }

  lemma OnceIndex(pattern: seq<Timebin>, bin: Timebin, i: nat)
    requires Once(pattern, bin) && i < |pattern| && pattern[i] == bin
    ensures LastIndex(pattern, bin) == Some(i)
  {
  }

  /** The true wait until the bin at offset `rel` of the pattern. */
  function WaitFromPhase(s: Schedule, phase: int, rel: int): int {
    if rel >= phase then rel - phase else s.period - phase + rel
  }

  lemma WaitIsLeast(s: Schedule, time: int, bin: Timebin, k: nat)
    requires s.Fits() && Once(s.pattern, bin) && k < |s.pattern| && s.pattern[k] == bin
    ensures 0 <= WaitFromPhase(s, Phase(s, time), k * s.binLength) < s.period
    ensures IsLeastWait(s, time, bin, Some(WaitFromPhase(s, Phase(s, time), k * s.binLength)))
  {
    var rel := k * s.binLength;
    var r := Phase(s, time);
    var w := WaitFromPhase(s, r, rel);
    PatternEnds(s, k);
    PhaseAfter(s, time, w);
    BinPhase(s, time + w, k);
    forall x | time <= x < time + w ensures BinAt(s, x) != Some(bin) {
      PhaseAfter(s, time, x - time);
      if BinAt(s, x) == Some(bin) {
        var j := BinAtPhase(s, x);
        OnceIndex(s.pattern, bin, j);
        OnceIndex(s.pattern, bin, k);
      }
    }
  }

  /** With the first bin at time zero and a bin that occurs once, the closed form is the
      least wait, and it is less than a period. */
  lemma NextSpecificBinIsLeast(s: Schedule, time: int, bin: Timebin)
    requires s.Fits() && s.firstBin == 0 && Once(s.pattern, bin)
    ensures IsLeastWait(s, time, bin, NextSpecificBin(s, time, bin))
    ensures NextSpecificBin(s, time, bin).value < s.period
  {
    var k :| 0 <= k < |s.pattern| && s.pattern[k] == bin;
    OnceIndex(s.pattern, bin, k);
    SinceStartIsPhase(s, time);
    WaitIsLeast(s, time, bin, k);
  }

  lemma LeastWaitUnique(s: Schedule, time: int, bin: Timebin, v: Option<int>, w: Option<int>)
    requires s.Divisible() && IsLeastWait(s, time, bin, v) && IsLeastWait(s, time, bin, w)
    ensures v == w
  {
    assert BinAt(s, time + v.value) == BinAt(s, time + w.value) == Some(bin);
  }

  lemma BinInFirstRepetition(s: Schedule, i: nat)
    requires s.Fits() && s.firstBin == 0 && i < |s.pattern|
    ensures 0 <= i * s.binLength < s.period && BinAt(s, i * s.binLength) == Some(s.pattern[i])
  {
    PatternEnds(s, i);
    DivModUnique(i * s.binLength, s.period, 0, i * s.binLength);
    BinPhase(s, i * s.binLength, i);
  }

  lemma WaitAtZero(s: Schedule, bin: Timebin)
    requires s.Fits() && s.firstBin == 0 && bin in s.pattern
    ensures NextSpecificBin(s, 0, bin) == Some(LastIndex(s.pattern, bin).value * s.binLength)
  {
    DivModUnique(0, s.period, 0, 0);
    SinceStartIsPhase(s, 0);
    PatternEnds(s, LastIndex(s.pattern, bin).value);
  }

  lemma OtherWaitIsNotLeast(s: Schedule, time: int, bin: Timebin, v: Option<int>, w: Option<int>)
    requires s.Divisible() && IsLeastWait(s, time, bin, v) && v != w
    ensures !IsLeastWait(s, time, bin, w)
  {
    if IsLeastWait(s, time, bin, w) {
      LeastWaitUnique(s, time, bin, v, w);
    }
  }

  lemma NotLeastIfRepeated(s: Schedule, bin: Timebin, i: nat, last: nat)
    requires s.Fits() && s.firstBin == 0
    requires i < last < |s.pattern| && s.pattern[i] == bin && LastIndex(s.pattern, bin) == Some(last)
    ensures !IsLeastWait(s, 0, bin, NextSpecificBin(s, 0, bin))
  {
    BinInFirstRepetition(s, i);
    MulMonotone(i + 1, last, s.binLength);
    WaitAtZero(s, bin);
    EarlierBinRefutes(s, bin, i * s.binLength, last * s.binLength);
  }

  lemma EarlierBinRefutes(s: Schedule, bin: Timebin, x: int, w: int)
    requires s.Divisible() && 0 <= x < w && BinAt(s, x) == Some(bin)
    ensures !IsLeastWait(s, 0, bin, Some(w))
  {
  }

  /** The last match is kept, so minimality at all times needs the bin to occur once. */
  lemma LeastIffBinOccursOnce(s: Schedule, bin: Timebin)
    requires s.Fits() && s.firstBin == 0 && bin in s.pattern
    ensures (forall t :: IsLeastWait(s, t, bin, NextSpecificBin(s, t, bin))) <==> Once(s.pattern, bin)
  {
    if Once(s.pattern, bin) {
      forall t ensures IsLeastWait(s, t, bin, NextSpecificBin(s, t, bin)) {
        NextSpecificBinIsLeast(s, t, bin);
      }
    } else {
      var i, j :| 0 <= i < j < |s.pattern| && s.pattern[i] == bin && s.pattern[j] == bin;
      NotLeastIfRepeated(s, bin, i, LastIndex(s.pattern, bin).value);
    }
  }

  /** Because the first bin is subtracted twice, the closed form is right at every time
      only when it is zero, or in one corner: a schedule that starts exactly one period
      early and a bin in the very last slot of the period. */
  lemma LeastIffFirstBin(s: Schedule, bin: Timebin)
    requires s.Fits() && Once(s.pattern, bin)
    ensures (forall t :: IsLeastWait(s, t, bin, NextSpecificBin(s, t, bin))) <==>
            s.firstBin == 0 ||
            (s.firstBin == -s.period && LastIndex(s.pattern, bin).value * s.binLength == s.period - 1)
  {
    var k := LastIndex(s.pattern, bin).value;
    var rel := k * s.binLength;
    var f := s.firstBin;
    PatternEnds(s, k);
    if f == 0 || (f == -s.period && rel == s.period - 1) {
      forall t ensures IsLeastWait(s, t, bin, NextSpecificBin(s, t, bin)) {
        SinceStartIsPhase(s, t);
        WaitIsLeast(s, t, bin, k);
      }
    } else {
      var t := if f == -s.period then f + s.period - 1 else f;
      assert Phase(s, t) == t - f by {
        DivModUnique(t - f, s.period, 0, t - f);
      }
      SinceStartIsPhase(s, t);
      WaitIsLeast(s, t, bin, k);
      OtherWaitIsNotLeast(s, t, bin, Some(WaitFromPhase(s, t - f, rel)), NextSpecificBin(s, t, bin));
    }
  }

  /** The wait is never negative exactly when the first bin is not too far in the past;
      otherwise the QPU scheduler finds neither a ready task nor a reason to wait. */
  lemma NonNegativeIffFirstBin(s: Schedule, bin: Timebin)
    requires s.Fits() && bin in s.pattern
    ensures (forall t :: NextSpecificBin(s, t, bin).Some? && NextSpecificBin(s, t, bin).value >= 0) <==>
            s.firstBin + LastIndex(s.pattern, bin).value * s.binLength + 1 >= 0
  {
    var rel := LastIndex(s.pattern, bin).value * s.binLength;
    var f := s.firstBin;
    MulMonotone(0, LastIndex(s.pattern, bin).value, s.binLength);
    forall t ensures NextSpecificBin(s, t, bin) ==
                     Some(if rel >= Phase(s, t) - f then rel - Phase(s, t) + f else s.period - Phase(s, t) + f + rel)
    {
      SinceStartIsPhase(s, t);
    }
    if f + rel + 1 < 0 {
      var t := f + s.period - 1;
      DivModUnique(s.period - 1, s.period, 0, s.period - 1);
      assert NextSpecificBin(s, t, bin).value < 0;
    }
  }

  // ----- the closed form agrees with stepping -----

  lemma StepStaysBefore(s: Schedule, time: int, bin: Timebin)
    requires s.Fits() && s.firstBin == 0 && Once(s.pattern, bin)
    ensures NextBin(s, time).Some? && NextSpecificBin(s, time, bin).Some?
    ensures var (x, b) := NextBin(s, time).value;
            var wait := NextSpecificBin(s, time, bin).value;
            && time <= x <= time + wait
            && (b == bin <==> wait == x - time)
  {
    NextBinIsNext(s, time);
    NextSpecificBinIsLeast(s, time, bin);
    var (x, b) := NextBin(s, time).value;
    var wait := NextSpecificBin(s, time, bin).value;
    assert BinAt(s, time + wait) == Some(bin);
    assert BinAt(s, x) == Some(b);
  }

  /** One step to the next bin is one step towards the specific bin. */
  lemma OneStep(s: Schedule, time: int, bin: Timebin)
    requires s.Fits() && s.firstBin == 0 && Once(s.pattern, bin)
    ensures NextBin(s, time).Some? && NextSpecificBin(s, time, bin).Some?
    ensures var (x, b) := NextBin(s, time).value;
            var wait := NextSpecificBin(s, time, bin).value;
            && time <= x && wait >= 0
            && (b == bin ==> wait == x - time)
            && (b != bin ==> wait > x - time &&
                             NextSpecificBin(s, x + 1, bin) == Some(wait - (x + 1 - time)))
  {
    StepStaysBefore(s, time, bin);
    NextSpecificBinIsLeast(s, time, bin);
    var (x, b) := NextBin(s, time).value;
    var wait := NextSpecificBin(s, time, bin).value;
    if b != bin {
      LeastWaitLater(s, time, x + 1, bin, wait);
      NextSpecificBinIsLeast(s, x + 1, bin);
      LeastWaitUnique(s, x + 1, bin, NextSpecificBin(s, x + 1, bin), Some(wait - (x + 1 - time)));
    }
  }

  lemma LeastWaitLater(s: Schedule, time: int, later: int, bin: Timebin, wait: int)
    requires s.Divisible() && IsLeastWait(s, time, bin, Some(wait)) && time <= later <= time + wait
    ensures IsLeastWait(s, later, bin, Some(wait - (later - time)))
  {
  }

  /** Walks from bin to bin until `bin` comes up, and returns the time spent. */
  ghost function Stepped(s: Schedule, time: int, bin: Timebin): int
    requires s.Fits() && s.firstBin == 0 && Once(s.pattern, bin)
    decreases (OneStep(s, time, bin); NextSpecificBin(s, time, bin).value)
  {
    OneStep(s, time, bin);
    var (x, b) := NextBin(s, time).value;
    if b == bin then x - time else x + 1 - time + Stepped(s, x + 1, bin)
  }

  lemma {:induction false} SteppingAgrees(s: Schedule, time: int, bin: Timebin)
    requires s.Fits() && s.firstBin == 0 && Once(s.pattern, bin)
    ensures NextSpecificBin(s, time, bin) == Some(Stepped(s, time, bin))
    decreases (OneStep(s, time, bin); NextSpecificBin(s, time, bin).value)
  {
    OneStep(s, time, bin);
    var (x, b) := NextBin(s, time).value;
    if b != bin {
      OneStep(s, x + 1, bin);
      SteppingAgrees(s, x + 1, bin);
    }
  }
}
