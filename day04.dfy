/** Day 4: pairs of section ranges, "a-b,c-d", counted when one range
    contains the other and when they overlap. */
module Day04 {
  import opened Common

  /** An inclusive range of `u32` section numbers. */
  datatype Range = Range(start: nat, end: nat)

  predicate WellFormed(r: Range)
  {
    r.start <= r.end
  }

  predicate Holds(r: Range, x: int)
  {
    r.start <= x <= r.end
  }

  /** `Range::is_inclusive`: `a` contains `b`. */
  function IsInclusive(a: Range, b: Range): bool
  {
    a.start <= b.start && a.end >= b.end
  }

  /** `Range::overlaps`: one range starts inside the other. */
  function Overlaps(a: Range, b: Range): bool
  {
    (a.start <= b.start && b.start <= a.end) || (b.start <= a.start && a.start <= b.end)
  }

  /** Containment is read off the sections: `a` contains `b` exactly when
      every section of `b` is a section of `a`. */
  lemma {:induction false} InclusiveMeaning(a: Range, b: Range)
    requires WellFormed(b)
    ensures IsInclusive(a, b) <==> forall x :: Holds(b, x) ==> Holds(a, x)
  {
    if !IsInclusive(a, b) {
      if a.start > b.start {
        assert Holds(b, b.start) && !Holds(a, b.start);
      } else {
        assert Holds(b, b.end) && !Holds(a, b.end);
      }
    }
  }

  lemma {:induction false} OverlapsSymmetric(a: Range, b: Range)
    ensures Overlaps(a, b) == Overlaps(b, a)
  {
  }

  /** For well-formed ranges, overlapping means sharing a section, which
      is the usual two-sided interval test. */
  lemma {:induction false} OverlapsMeaning(a: Range, b: Range)
    requires WellFormed(a) && WellFormed(b)
    ensures Overlaps(a, b) <==> a.start <= b.end && b.start <= a.end
    ensures Overlaps(a, b) <==> exists x :: Holds(a, x) && Holds(b, x)
  {
    if Overlaps(a, b) {
      var x := if a.start <= b.start then b.start else a.start;
      assert Holds(a, x) && Holds(b, x);
    }
  }

  /** Containment implies overlap, in either direction. */
  lemma {:induction false} InclusiveOverlaps(a: Range, b: Range)
    requires WellFormed(a) && WellFormed(b)
    ensures IsInclusive(a, b) || IsInclusive(b, a) ==> Overlaps(a, b)
  {
    OverlapsMeaning(a, b);
  }

  /** The four fields of a line, "a-b,c-d", as text. */
  function Fields(line: string): Option<(string, string, string, string)>
  {
    match SplitOnce(line, ",")
    case None => None
    case Some((fst, snd)) =>
      match (SplitOnce(fst, "-"), SplitOnce(snd, "-"))
      case (Some((a, b)), Some((c, d))) => Some((a, b, c, d))
      case _ => None
  }

  /** The `expect`s of `read_elves`: the delimiters are there and each
      field is a `u32`. */
  predicate LineParses(line: string)
  {
    var f := Fields(line);
    f.Some? && ParseNat(f.value.0, U32_MAX).Some? && ParseNat(f.value.1, U32_MAX).Some?
    && ParseNat(f.value.2, U32_MAX).Some? && ParseNat(f.value.3, U32_MAX).Some?
  }

  predicate AllParse(lines: seq<string>)
  {
    forall i :: 0 <= i < |lines| ==> LineParses(lines[i])
  }

  function ParsePair(line: string): (p: (Range, Range))
    requires LineParses(line)
    ensures var f := Fields(line).value;
      && ParseNat(f.0, U32_MAX) == Some(p.0.start) && ParseNat(f.1, U32_MAX) == Some(p.0.end)
      && ParseNat(f.2, U32_MAX) == Some(p.1.start) && ParseNat(f.3, U32_MAX) == Some(p.1.end)
  {
    var f := Fields(line).value;
    (Range(ParseNat(f.0, U32_MAX).value, ParseNat(f.1, U32_MAX).value),
     Range(ParseNat(f.2, U32_MAX).value, ParseNat(f.3, U32_MAX).value))
  }

  /** `read_elves`: one pair per line. */
  function ReadElves(lines: seq<string>): (pairs: seq<(Range, Range)>)
    requires AllParse(lines)
    ensures |pairs| == |lines| && forall i :: 0 <= i < |lines| ==> pairs[i] == ParsePair(lines[i])
  {
    seq(|lines|, i requires 0 <= i < |lines| && LineParses(lines[i]) => ParsePair(lines[i]))
  }

  function EitherContains(p: (Range, Range)): bool
  {
    IsInclusive(p.0, p.1) || IsInclusive(p.1, p.0)
  }

  function PairOverlaps(p: (Range, Range)): bool
  {
    Overlaps(p.0, p.1)
  }

  function PartOne(lines: seq<string>): nat
    requires AllParse(lines)
  {
    CountWhere(ReadElves(lines), EitherContains)
  }

  function PartTwo(lines: seq<string>): nat
    requires AllParse(lines)
  {
    CountWhere(ReadElves(lines), PairOverlaps)
  }

  /** Among well-formed pairs, every pair with a containment overlaps,
      so the first count never exceeds the second. */
  lemma {:induction false} ContainedAtMostOverlapping(pairs: seq<(Range, Range)>)
    requires forall i :: 0 <= i < |pairs| ==> WellFormed(pairs[i].0) && WellFormed(pairs[i].1)
    ensures CountWhere(pairs, EitherContains) <= CountWhere(pairs, PairOverlaps)
  {
    if pairs != [] {
      var last := pairs[|pairs| - 1];
      ContainedAtMostOverlapping(pairs[..|pairs| - 1]);
      InclusiveOverlaps(last.0, last.1);
    }
  }

  lemma {:induction false} PartOneAtMostPartTwo(lines: seq<string>)
    requires AllParse(lines)
    requires forall i :: 0 <= i < |lines| ==> WellFormed(ParsePair(lines[i]).0) && WellFormed(ParsePair(lines[i]).1)
    ensures PartOne(lines) <= PartTwo(lines)
  {
    ContainedAtMostOverlapping(ReadElves(lines));
  }

  /** Rust's `<=` on `&str`: lexicographic, a proper prefix first. */
  function LexLe(a: string, b: string): bool
  {
    if a == [] then true
    else if b == [] then false
    else if a[0] != b[0] then a[0] < b[0]
    else LexLe(a[1..], b[1..])
  }

  type FieldText = (string, string, string, string)

  predicate HasFields(lines: seq<string>)
  {
    forall i :: 0 <= i < |lines| ==> Fields(lines[i]).Some?
  }

  /** The four text fields of every line, as the first step of `solve`
      takes them. */
  function AllFields(lines: seq<string>): (fs: seq<FieldText>)
    requires HasFields(lines)
    ensures |fs| == |lines| && forall i :: 0 <= i < |lines| ==> Some(fs[i]) == Fields(lines[i])
  {
    seq(|lines|, i requires 0 <= i < |lines| && Fields(lines[i]).Some? => Fields(lines[i]).value)
  }

  /** One line's counts in `solve` as written: the four fields are compared
      as text. */
  function CountsAsWritten(f: FieldText): (nat, nat)
  {
    var (a, b, c, d) := f;
    ((if (LexLe(a, c) && LexLe(d, b)) || (LexLe(c, a) && LexLe(b, d)) then 1 else 0),
     (if (LexLe(a, c) && LexLe(c, b)) || (LexLe(c, a) && LexLe(a, d)) then 1 else 0))
  }

  /** The fold of `solve` as written. */
  function TallyText(fs: seq<FieldText>): (r: (nat, nat))
    ensures r.0 <= |fs| && r.1 <= |fs|
  {
    if fs == [] then (0, 0)
    else
      var before := TallyText(fs[..|fs| - 1]);
      var last := CountsAsWritten(fs[|fs| - 1]);
      (before.0 + last.0, before.1 + last.1)
  }

  function SolveAsWritten(lines: seq<string>): (nat, nat)
    requires HasFields(lines)
  {
    TallyText(AllFields(lines))
  }

  /** The line "5-10,6-9": 6-9 lies inside 5-10, but "9" sorts after
      "10" as text, so the written `solve` does not count it. */
  lemma {:induction false} SolveAsWrittenCounterexample()
    ensures var f := (['5'], ['1', '0'], ['6'], ['9']);
      && ParseNat(f.0, U32_MAX) == Some(5) && ParseNat(f.1, U32_MAX) == Some(10)
      && ParseNat(f.2, U32_MAX) == Some(6) && ParseNat(f.3, U32_MAX) == Some(9)
      && EitherContains((Range(5, 10), Range(6, 9)))
      && CountsAsWritten(f).0 == 0
  {
    assert DecimalValue(['1', '0']) == 10 by {
      assert ['1', '0'][..1] == ['1'];
    }
    assert ['1', '0'][1..] == ['0'];
  }

  /** One line's counts with the fields compared as numbers, as the two
      parts compare them. */
  function Counts(p: (Range, Range)): (nat, nat)
  {
    (if EitherContains(p) then 1 else 0, if PairOverlaps(p) then 1 else 0)
  }

  function Tally(pairs: seq<(Range, Range)>): (nat, nat)
  {
    if pairs == [] then (0, 0)
    else
      var before := Tally(pairs[..|pairs| - 1]);
      var last := Counts(pairs[|pairs| - 1]);
      (before.0 + last.0, before.1 + last.1)
  }

  /** `solve` with the fields compared as numbers. */
  function Solve(lines: seq<string>): (nat, nat)
    requires AllParse(lines)
  {
    Tally(ReadElves(lines))
  }

  /** The one-pass fold counts exactly what the two filters count. */
  lemma {:induction false} TallyIsBothCounts(pairs: seq<(Range, Range)>)
    ensures Tally(pairs) == (CountWhere(pairs, EitherContains), CountWhere(pairs, PairOverlaps))
  {
    if pairs != [] {
      TallyIsBothCounts(pairs[..|pairs| - 1]);
    }
  }

  /** The corrected `solve` returns both parts' answers. */
  lemma {:induction false} SolveIsBothParts(lines: seq<string>)
    requires AllParse(lines)
    ensures Solve(lines) == (PartOne(lines), PartTwo(lines))
  {
    TallyIsBothCounts(ReadElves(lines));
  }

  /** Text fields that read as the numbers of a pair. */
  predicate ReadsAs(f: FieldText, p: (Range, Range))
  {
    && ParseNat(f.0, U32_MAX) == Some(p.0.start) && ParseNat(f.1, U32_MAX) == Some(p.0.end)
    && ParseNat(f.2, U32_MAX) == Some(p.1.start) && ParseNat(f.3, U32_MAX) == Some(p.1.end)
  }

  predicate OneDigitFields(f: FieldText)
  {
    |f.0| == 1 && |f.1| == 1 && |f.2| == 1 && |f.3| == 1
  }

  /** For one-character numerals, text order is number order. */
  lemma {:induction false} OneDigitOrder(a: string, b: string, x: nat, y: nat)
    requires |a| == 1 && |b| == 1
    requires ParseNat(a, U32_MAX) == Some(x) && ParseNat(b, U32_MAX) == Some(y)
    ensures LexLe(a, b) <==> x <= y
  {
    assert a[..0] == [] && b[..0] == [];
    assert a[1..] == [] && b[1..] == [];
  }

  lemma {:induction false} OneDigitCounts(f: FieldText, p: (Range, Range))
    requires OneDigitFields(f) && ReadsAs(f, p)
    ensures CountsAsWritten(f) == Counts(p)
  {
    OneDigitOrder(f.0, f.2, p.0.start, p.1.start);
    OneDigitOrder(f.2, f.0, p.1.start, p.0.start);
    OneDigitOrder(f.3, f.1, p.1.end, p.0.end);
    OneDigitOrder(f.1, f.3, p.0.end, p.1.end);
    OneDigitOrder(f.2, f.1, p.1.start, p.0.end);
    OneDigitOrder(f.0, f.3, p.0.start, p.1.end);
  }

  /** Lines the written and the numeric comparisons count alike tally
      alike. */
  lemma {:induction false} TallyAgree(fs: seq<FieldText>, pairs: seq<(Range, Range)>)
    requires |fs| == |pairs|
    requires forall i :: 0 <= i < |fs| ==> CountsAsWritten(fs[i]) == Counts(pairs[i])
    ensures TallyText(fs) == Tally(pairs)
  {
    if fs != [] {
      var n := |fs| - 1;
      assert forall i :: 0 <= i < n ==> fs[..n][i] == fs[i] && pairs[..n][i] == pairs[i];
      TallyAgree(fs[..n], pairs[..n]);
    }
  }

  /** When every field is one character, the written `solve` agrees with
      the two parts; the example input has only such fields. */
  lemma {:induction false} SingleDigitsAgree(lines: seq<string>)
    requires AllParse(lines)
    requires forall i :: 0 <= i < |lines| ==> OneDigitFields(Fields(lines[i]).value)
    ensures SolveAsWritten(lines) == (PartOne(lines), PartTwo(lines))
  {
    var fs := AllFields(lines);
    var pairs := ReadElves(lines);
    forall i | 0 <= i < |fs|
      ensures CountsAsWritten(fs[i]) == Counts(pairs[i])
    {
      assert LineParses(lines[i]);
      OneDigitCounts(fs[i], pairs[i]);
    }
    TallyAgree(fs, pairs);
    SolveIsBothParts(lines);
  }
}
