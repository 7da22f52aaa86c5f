/** Day 9: extrapolating sequences by repeated finite differences. */
module Day09 {
  import opened Common

  /** `differentiate`: the differences of neighbouring values; a sequence
      shorter than two gives the empty sequence. */
  function Differentiate(s: seq<int>): (d: seq<int>)
    ensures |d| == if |s| == 0 then 0 else |s| - 1
  {
    seq(if |s| == 0 then 0 else |s| - 1, i requires 0 <= i < |s| - 1 => s[i + 1] - s[i])
  }

  predicate AllZero(s: seq<int>)
  {
    forall i :: 0 <= i < |s| ==> s[i] == 0
  }

  /** The next value of the sequence: the last value plus the next value
      of the differences, until the differences are all zero. */
  function NextValue(s: seq<int>): int
    decreases |s|
  {
    if AllZero(s) then 0 else s[|s| - 1] + NextValue(Differentiate(s))
  }

  /** The value before the first: the first value minus the value before
      the differences' first. */
  function PrevValue(s: seq<int>): int
    decreases |s|
  {
    if AllZero(s) then 0 else s[0] - PrevValue(Differentiate(s))
  }

  /** Summing the differences from the first value gives the sequence
      back: `Differentiate` loses only the first value. */
  function Integrate(x: int, d: seq<int>): (s: seq<int>)
    ensures |s| == |d| + 1 && s[0] == x
    decreases |d|
  {
    if d == [] then [x] else [x] + Integrate(x + d[0], d[1..])
  }

  lemma {:induction false} IntegrateDifferentiate(s: seq<int>)
    requires |s| >= 1
    ensures Integrate(s[0], Differentiate(s)) == s
    decreases |s|
  {
    if |s| >= 2 {
      IntegrateDifferentiate(s[1..]);
      assert Differentiate(s) == [s[1] - s[0]] + Differentiate(s[1..]);
      assert s == [s[0]] + s[1..];
    }
  }

  lemma {:induction false} DifferentiateZero(s: seq<int>)
    requires AllZero(s)
    ensures AllZero(Differentiate(s))
  {
  }

  lemma {:induction false} DifferentiateSnoc(s: seq<int>, x: int)
    requires |s| >= 1
    ensures Differentiate(s + [x]) == Differentiate(s) + [x - s[|s| - 1]]
  {
  }

  lemma {:induction false} DifferentiateCons(x: int, s: seq<int>)
    requires |s| >= 1
    ensures Differentiate([x] + s) == [s[0] - x] + Differentiate(s)
  {
  }

  /** The next value exceeds the last by the differences' next value,
      whether or not the line is all zero. */
  lemma {:induction false} NextValueStep(s: seq<int>)
    requires |s| >= 1
    ensures NextValue(s) == s[|s| - 1] + NextValue(Differentiate(s))
  {
    if AllZero(s) {
      DifferentiateZero(s);
      ZeroLine(Differentiate(s));
    }
  }

  lemma {:induction false} PrevValueStep(s: seq<int>)
    requires |s| >= 1
    ensures PrevValue(s) == s[0] - PrevValue(Differentiate(s))
  {
    if AllZero(s) {
      DifferentiateZero(s);
      ZeroLine(Differentiate(s));
    }
  }

  /** What extrapolation means: the differences of the extended sequence
      are the extended differences, so the new value continues every
      difference level. */
  lemma {:induction false} NextValueExtends(s: seq<int>)
    requires |s| >= 1
    ensures Differentiate(s + [NextValue(s)]) == Differentiate(s) + [NextValue(Differentiate(s))]
  {
    NextValueStep(s);
    DifferentiateSnoc(s, NextValue(s));
  }

  lemma {:induction false} PrevValueExtends(s: seq<int>)
    requires |s| >= 1
    ensures Differentiate([PrevValue(s)] + s) == [PrevValue(Differentiate(s))] + Differentiate(s)
  {
    PrevValueStep(s);
    DifferentiateCons(PrevValue(s), s);
  }

  /** An all-zero line extrapolates to zero at both ends. */
  lemma {:induction false} ZeroLine(s: seq<int>)
    requires AllZero(s)
    ensures NextValue(s) == 0 && PrevValue(s) == 0
  {
  }

  /** The right fold of `part_one`: the sum of the collected last values. */
  function SumRight(vs: seq<int>): int
  {
    if vs == [] then 0 else vs[0] + SumRight(vs[1..])
  }

  /** The right fold of `part_two`: `v0 - (v1 - (v2 - …))`. */
  function AlternateRight(vs: seq<int>): int
  {
    if vs == [] then 0 else vs[0] - AlternateRight(vs[1..])
  }

  /** The difference levels of `s`, down to the first all-zero one. */
  function Levels(s: seq<int>): (ls: seq<seq<int>>)
    ensures forall k :: 0 <= k < |ls| ==> !AllZero(ls[k])
    decreases |s|
  {
    if AllZero(s) then [] else [s] + Levels(Differentiate(s))
  }

  /** The last value of a level; levels are never empty. */
  function Last(s: seq<int>): int
  {
    if s == [] then 0 else s[|s| - 1]
  }

  function First(s: seq<int>): int
  {
    if s == [] then 0 else s[0]
  }

  function Lasts(ls: seq<seq<int>>): (r: seq<int>)
    ensures |r| == |ls|
  {
    seq(|ls|, k requires 0 <= k < |ls| => Last(ls[k]))
  }

  function Firsts(ls: seq<seq<int>>): (r: seq<int>)
    ensures |r| == |ls|
  {
    seq(|ls|, k requires 0 <= k < |ls| => First(ls[k]))
  }

  lemma {:induction false} LevelsUnfold(s: seq<int>)
    requires !AllZero(s)
    ensures Levels(s) == [s] + Levels(Differentiate(s))
  {
  }

  lemma {:induction false} LastsCons(x: seq<int>, rest: seq<seq<int>>)
    ensures Lasts([x] + rest) == [Last(x)] + Lasts(rest)
  {
  }

  lemma {:induction false} FirstsCons(x: seq<int>, rest: seq<seq<int>>)
    ensures Firsts([x] + rest) == [First(x)] + Firsts(rest)
  {
  }

  lemma {:induction false} LastsSnoc(ls: seq<seq<int>>, x: seq<int>)
    ensures Lasts(ls + [x]) == Lasts(ls) + [Last(x)]
  {
  }

  lemma {:induction false} FirstsSnoc(ls: seq<seq<int>>, x: seq<int>)
    ensures Firsts(ls + [x]) == Firsts(ls) + [First(x)]
  {
  }

  /** The collected last values fold to the next value. */
  lemma {:induction false} FoldLasts(s: seq<int>)
    ensures SumRight(Lasts(Levels(s))) == NextValue(s)
    decreases |s|
  {
    if !AllZero(s) {
      FoldLasts(Differentiate(s));
      LevelsUnfold(s);
      var rest := Levels(Differentiate(s));
      LastsCons(s, rest);
    }
  }

  /** The collected first values fold to the previous value. */
  lemma {:induction false} FoldFirsts(s: seq<int>)
    ensures AlternateRight(Firsts(Levels(s))) == PrevValue(s)
    decreases |s|
  {
    if !AllZero(s) {
      FoldFirsts(Differentiate(s));
      LevelsUnfold(s);
      var rest := Levels(Differentiate(s));
      FirstsCons(s, rest);
    }
  }

  /** The loop of `part_one` for one line: collect the last value of each
      level until the level is all zero, then fold from the right. */
  method ExtrapolateForward(measurement0: seq<int>) returns (r: int)
    ensures r == NextValue(measurement0)
  {
    var measurement := measurement0;
    ghost var levels := Levels(measurement0);
    var lastValues: seq<int> := [];
    while !AllZero(measurement)
      invariant |lastValues| <= |levels| && Levels(measurement) == levels[|lastValues|..]
      invariant lastValues == Lasts(levels[..|lastValues|])
      decreases |measurement|
    {
      ghost var n := |lastValues|;
      LevelsUnfold(measurement);
      assert levels[n] == measurement && levels[n + 1..] == Levels(Differentiate(measurement)) by {
        assert levels[n..] == [measurement] + Levels(Differentiate(measurement));
      }
      assert levels[..n + 1] == levels[..n] + [measurement];
      LastsSnoc(levels[..n], measurement);
      lastValues := lastValues + [measurement[|measurement| - 1]];
      measurement := Differentiate(measurement);
    }
    assert levels[..|lastValues|] == levels;
    FoldLasts(measurement0);
    r := 0;
    var k := |lastValues|;
    while k > 0
      invariant 0 <= k <= |lastValues|
      invariant r == SumRight(lastValues[k..])
    {
      k := k - 1;
      assert lastValues[k..][1..] == lastValues[k + 1..];
      r := lastValues[k] + r;
    }
  }

  /** The loop of `part_two` for one line, on first values. */
  method ExtrapolateBackward(measurement0: seq<int>) returns (r: int)
    ensures r == PrevValue(measurement0)
  {
    var measurement := measurement0;
    ghost var levels := Levels(measurement0);
    var firstValues: seq<int> := [];
    while !AllZero(measurement)
      invariant |firstValues| <= |levels| && Levels(measurement) == levels[|firstValues|..]
      invariant firstValues == Firsts(levels[..|firstValues|])
      decreases |measurement|
    {
      ghost var n := |firstValues|;
      LevelsUnfold(measurement);
      assert levels[n] == measurement && levels[n + 1..] == Levels(Differentiate(measurement)) by {
        assert levels[n..] == [measurement] + Levels(Differentiate(measurement));
      }
      assert levels[..n + 1] == levels[..n] + [measurement];
      FirstsSnoc(levels[..n], measurement);
      firstValues := firstValues + [measurement[0]];
      measurement := Differentiate(measurement);
    }
    assert levels[..|firstValues|] == levels;
    FoldFirsts(measurement0);
    r := 0;
    var k := |firstValues|;
    while k > 0
      invariant 0 <= k <= |firstValues|
      invariant r == AlternateRight(firstValues[k..])
    {
      k := k - 1;
      assert firstValues[k..][1..] == firstValues[k + 1..];
      r := firstValues[k] - r;
    }
  }

  /** Every word of every line is an `i64` (`parse().unwrap()`). */
  predicate Parsable(lines: seq<string>)
  {
    forall i :: 0 <= i < |lines| ==> forall k :: 0 <= k < |Words(lines[i])| ==>
      ParseInt(Words(lines[i])[k], I64_MIN, I64_MAX).Some?
  }

  function ParseLine(line: string): seq<int>
    requires forall k :: 0 <= k < |Words(line)| ==> ParseInt(Words(line)[k], I64_MIN, I64_MAX).Some?
  {
    var ws := Words(line);
    seq(|ws|, k requires 0 <= k < |ws| => ParseInt(ws[k], I64_MIN, I64_MAX).value)
  }

  function Measurements(lines: seq<string>): (ms: seq<seq<int>>)
    requires Parsable(lines)
    ensures |ms| == |lines|
  {
    seq(|lines|, i requires 0 <= i < |lines| => ParseLine(lines[i]))
  }

  function SumNext(ms: seq<seq<int>>): int
  {
    if ms == [] then 0 else SumNext(ms[..|ms| - 1]) + NextValue(ms[|ms| - 1])
  }

  function SumPrev(ms: seq<seq<int>>): int
  {
    if ms == [] then 0 else SumPrev(ms[..|ms| - 1]) + PrevValue(ms[|ms| - 1])
  }

  /** `part_one`: the sum of every line's next value. */
  method PartOne(lines: seq<string>) returns (total: int)
    requires Parsable(lines)
    ensures total == SumNext(Measurements(lines))
  {
    var ms := Measurements(lines);
    total := 0;
    for i := 0 to |ms|
      invariant total == SumNext(ms[..i])
    {
      var v := ExtrapolateForward(ms[i]);
      assert ms[..i + 1][..i] == ms[..i];
      total := total + v;
    }
    assert ms[..|ms|] == ms;
  }

  /** `part_two`: the sum of every line's previous value. */
  method PartTwo(lines: seq<string>) returns (total: int)
    requires Parsable(lines)
    ensures total == SumPrev(Measurements(lines))
  {
    var ms := Measurements(lines);
    total := 0;
    for i := 0 to |ms|
      invariant total == SumPrev(ms[..i])
    {
      var v := ExtrapolateBackward(ms[i]);
      assert ms[..i + 1][..i] == ms[..i];
      total := total + v;
    }
    assert ms[..|ms|] == ms;
  }

  /** One level of both extrapolations. */
  lemma {:induction false} ExtrapolateStep(s: seq<int>, d: seq<int>)
    requires (|s| > 0 && s[0] != 0) || (|s| > 1 && s[1] != 0)
    requires d == Differentiate(s)
    ensures NextValue(s) == s[|s| - 1] + NextValue(d)
    ensures PrevValue(s) == s[0] - PrevValue(d)
  {
  }

  /** A sequence whose neighbours differ as `d` says has `d` as its
      differences. */
  lemma {:induction false} DifferencesAre(s: seq<int>, d: seq<int>)
    requires |s| >= 1 && |d| == |s| - 1
    requires forall i :: 0 <= i < |d| ==> d[i] == s[i + 1] - s[i]
    ensures Differentiate(s) == d
  {
  }

  /** A constant line extrapolates to its constant at both ends. */
  lemma {:induction false} ConstantLine(s: seq<int>, c: int)
    requires |s| >= 1 && forall i :: 0 <= i < |s| ==> s[i] == c
    ensures NextValue(s) == c && PrevValue(s) == c
  {
    var d := Differentiate(s);
    assert AllZero(d);
    ZeroLine(d);
    if c != 0 {
      ExtrapolateStep(s, d);
    }
  }

  /** One level up: from the extrapolations of the differences `d` to those
      of `s`. */
  lemma {:induction false} LevelUp(s: seq<int>, d: seq<int>, next: int, prev: int)
    requires (|s| > 0 && s[0] != 0) || (|s| > 1 && s[1] != 0)
    requires |d| == |s| - 1 && forall i :: 0 <= i < |d| ==> d[i] == s[i + 1] - s[i]
    requires NextValue(d) == next && PrevValue(d) == prev
    ensures NextValue(s) == s[|s| - 1] + next && PrevValue(s) == s[0] - prev
  {
    DifferencesAre(s, d);
    ExtrapolateStep(s, d);
  }

  /** The example's first line, 0 3 6 9 12 15, continues with 18 and
      starts with -3. (The examples take the line as a parameter so that
      the solver does not evaluate the definitions on literal arguments.) */
  lemma {:induction false} ExampleLine(s: seq<int>)
    requires s == [0, 3, 6, 9, 12, 15]
    ensures NextValue(s) == 18 && PrevValue(s) == -3
  {
    var d1 := [3, 3, 3, 3, 3];
    ConstantLine(d1, 3);
    LevelUp(s, d1, 3, 3);
  }

  lemma {:induction false} SecondLineDifferences(d1: seq<int>)
    requires d1 == [2, 3, 4, 5, 6]
    ensures NextValue(d1) == 7 && PrevValue(d1) == 1
  {
    var d2 := [1, 1, 1, 1];
    ConstantLine(d2, 1);
    LevelUp(d1, d2, 1, 1);
  }

  lemma {:induction false} ExampleSecondLine(s: seq<int>)
    requires s == [1, 3, 6, 10, 15, 21]
    ensures NextValue(s) == 28 && PrevValue(s) == 0
  {
    var d1 := [2, 3, 4, 5, 6];
    SecondLineDifferences(d1);
    LevelUp(s, d1, 7, 1);
  }

  lemma {:induction false} ThirdLineSecondDifferences(d2: seq<int>)
    requires d2 == [0, 2, 4, 6]
    ensures NextValue(d2) == 8 && PrevValue(d2) == -2
  {
    var d3 := [2, 2, 2];
    ConstantLine(d3, 2);
    LevelUp(d2, d3, 2, 2);
  }

  lemma {:induction false} ThirdLineDifferences(d1: seq<int>)
    requires d1 == [3, 3, 5, 9, 15]
    ensures NextValue(d1) == 23 && PrevValue(d1) == 5
  {
    var d2 := [0, 2, 4, 6];
    ThirdLineSecondDifferences(d2);
    LevelUp(d1, d2, 8, -2);
  }

  lemma {:induction false} ExampleThirdLine(s: seq<int>)
    requires s == [10, 13, 16, 21, 30, 45]
    ensures NextValue(s) == 68 && PrevValue(s) == 5
  {
    var d1 := [3, 3, 5, 9, 15];
    ThirdLineDifferences(d1);
    LevelUp(s, d1, 23, 5);
  }

  lemma {:induction false} SumsOfThree(ms: seq<seq<int>>)
    requires |ms| == 3
    ensures SumNext(ms) == NextValue(ms[0]) + NextValue(ms[1]) + NextValue(ms[2])
    ensures SumPrev(ms) == PrevValue(ms[0]) + PrevValue(ms[1]) + PrevValue(ms[2])
  {
    var two := ms[..2];
    var one := two[..1];
    assert one[..0] == [];
    assert one[0] == ms[0] && two[1] == ms[1];
    assert SumNext(one) == NextValue(ms[0]);
    assert SumNext(two) == SumNext(one) + NextValue(ms[1]);
    assert SumNext(ms) == SumNext(two) + NextValue(ms[2]);
    assert SumPrev(one) == PrevValue(ms[0]);
    assert SumPrev(two) == SumPrev(one) + PrevValue(ms[1]);
    assert SumPrev(ms) == SumPrev(two) + PrevValue(ms[2]);
  }

  /** The example's three lines: the next values sum to 114 and the
      previous values to 2. */
  lemma {:induction false} ExampleTotals(ms: seq<seq<int>>)
    requires ms == [[0, 3, 6, 9, 12, 15], [1, 3, 6, 10, 15, 21], [10, 13, 16, 21, 30, 45]]
    ensures SumNext(ms) == 114 && SumPrev(ms) == 2
  {
    ExampleLine(ms[0]);
    ExampleSecondLine(ms[1]);
    ExampleThirdLine(ms[2]);
    SumsOfThree(ms);
  }
}
