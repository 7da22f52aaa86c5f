/** Day 1: calibration values. Each line yields its first and last digit,
    read as a two-digit number, and the answer is the sum over the lines.
    This module holds part one (ASCII digits only) and the summing shared by
    both parts. */
module Day01 {
  import opened Common

  /** The values of the ASCII digits of `s`, in order. */
  function DigitsOf(s: string): seq<nat>
  {
    if s == [] then []
    else DigitsOf(s[..|s| - 1]) + (if IsDigit(s[|s| - 1]) then [DigitValue(s[|s| - 1])] else [])
  }

  /** Every entry of the list is a single decimal digit. */
  lemma {:induction false} DigitsBelowTen(s: string, k: nat)
    requires k < |DigitsOf(s)|
    ensures DigitsOf(s)[k] < 10
    decreases |s|
  {
    var init := s[..|s| - 1];
    if k < |DigitsOf(init)| {
      DigitsBelowTen(init, k);
    }
  }

  /** The first and the last of a list of digits; `None` for an empty list,
      where the source's `unwrap` panics. */
  function Ends(ds: seq<nat>): Option<(nat, nat)>
  {
    if ds == [] then None else Some((ds[0], ds[|ds| - 1]))
  }

  /** A line has no digit in the list exactly when it holds no ASCII digit. */
  lemma {:induction false} NoDigits(s: string)
    ensures DigitsOf(s) == [] <==> forall i :: 0 <= i < |s| ==> !IsDigit(s[i])
    decreases |s|
  {
    if s != [] {
      var init := s[..|s| - 1];
      NoDigits(init);
      assert forall i :: 0 <= i < |init| ==> init[i] == s[i];
    }
  }

  /** The first digit in the list is the leftmost ASCII digit of the line,
      at the index returned. */
  lemma {:induction false} LeadingDigit(s: string) returns (i: nat)
    requires DigitsOf(s) != []
    ensures i < |s| && IsDigit(s[i]) && DigitsOf(s)[0] == DigitValue(s[i])
    ensures forall j :: 0 <= j < i ==> !IsDigit(s[j])
    decreases |s|
  {
    var init := s[..|s| - 1];
    if DigitsOf(init) != [] {
      i := LeadingDigit(init);
      assert forall j :: 0 <= j <= i ==> init[j] == s[j];
    } else {
      NoDigits(init);
      assert forall j :: 0 <= j < |init| ==> init[j] == s[j];
      i := |s| - 1;
    }
  }

  /** The last digit in the list is the rightmost ASCII digit of the line,
      at the index returned. */
  lemma {:induction false} TrailingDigit(s: string) returns (i: nat)
    requires DigitsOf(s) != []
    ensures i < |s| && IsDigit(s[i]) && DigitsOf(s)[|DigitsOf(s)| - 1] == DigitValue(s[i])
    ensures forall j :: i < j < |s| ==> !IsDigit(s[j])
    decreases |s|
  {
    var init := s[..|s| - 1];
    if IsDigit(s[|s| - 1]) {
      i := |s| - 1;
    } else {
      i := TrailingDigit(init);
      assert s[i] == init[i];
    }
  }

  /** `get_digits_part1`: one pass over the characters, keeping the first
      digit seen and overwriting the last one. */
  method DigitsPartOne(s: string) returns (r: Option<(nat, nat)>)
    ensures r == Ends(DigitsOf(s))
  {
    var first: Option<nat> := None;
    var last: Option<nat> := None;
    for i := 0 to |s|
      invariant first == (if DigitsOf(s[..i]) == [] then None else Some(DigitsOf(s[..i])[0]))
      invariant last == (if DigitsOf(s[..i]) == [] then None else Some(DigitsOf(s[..i])[|DigitsOf(s[..i])| - 1]))
    {
      var c := s[i];
      assert s[..i + 1][..i] == s[..i];
      if IsDigit(c) {
        if first.None? {
          first := Some(DigitValue(c));
        }
        last := Some(DigitValue(c));
      }
    }
    assert s[..|s|] == s;
    if first.None? || last.None? {
      return None;
    }
    r := Some((first.value, last.value));
  }

  /** The two-digit calibration value of a line's first and last digit. */
  function Value(ends: (nat, nat)): nat
  {
    ends.0 * 10 + ends.1
  }

  /** The sum over the lines of their calibration values, `None` when some
      line has no digit, where the source panics. */
  function Calibration(lines: seq<string>, digits: string -> Option<(nat, nat)>): Option<nat>
    decreases |lines|
  {
    if lines == [] then Some(0)
    else
      var init := Calibration(lines[..|lines| - 1], digits);
      var ends := digits(lines[|lines| - 1]);
      if init.None? || ends.None? then None else Some(init.value + Value(ends.value))
  }

  /** The sum exists exactly when every line has a digit. */
  lemma {:induction false} CalibrationDefined(lines: seq<string>, digits: string -> Option<(nat, nat)>)
    ensures Calibration(lines, digits).Some? <==> forall k :: 0 <= k < |lines| ==> digits(lines[k]).Some?
    decreases |lines|
  {
    if lines != [] {
      var init := lines[..|lines| - 1];
      CalibrationDefined(init, digits);
      assert forall k :: 0 <= k < |init| ==> init[k] == lines[k];
    }
  }

  /** Each line adds at most 99 when its digits are single digits, so the
      total stays within `99` times the number of lines. */
  lemma {:induction false} CalibrationBound(lines: seq<string>, digits: string -> Option<(nat, nat)>)
    requires forall k :: 0 <= k < |lines| ==> digits(lines[k]).Some? ==>
               digits(lines[k]).value.0 < 10 && digits(lines[k]).value.1 < 10
    ensures Calibration(lines, digits).Some? ==> Calibration(lines, digits).value <= 99 * |lines|
    decreases |lines|
  {
    if lines != [] {
      var init := lines[..|lines| - 1];
      assert forall k :: 0 <= k < |init| ==> init[k] == lines[k];
      CalibrationBound(init, digits);
    }
  }

  /** The first and last ASCII digit of a line, as `get_digits_part1`
      computes them. */
  function PartOneDigits(line: string): Option<(nat, nat)>
  {
    Ends(DigitsOf(line))
  }

  /** `part_one`: the sum of the lines' values, each line's value computed
      by `get_digits_part1`. */
  method PartOne(input: string) returns (answer: Option<nat>)
    ensures answer == Calibration(Lines(input), PartOneDigits)
    ensures answer.Some? ==> answer.value <= 99 * |Lines(input)|
  {
    var lines := Lines(input);
    var total := 0;
    for k := 0 to |lines|
      invariant Calibration(lines[..k], PartOneDigits) == Some(total)
    {
      var ends := DigitsPartOne(lines[k]);
      if ends.None? {
        CalibrationNone(lines, k, PartOneDigits);
        return None;
      }
      CalibrationStep(lines, k, PartOneDigits);
      total := total + Value(ends.value);
    }
    assert lines[..|lines|] == lines;
    answer := Some(total);
    forall k | 0 <= k < |lines| && PartOneDigits(lines[k]).Some?
      ensures PartOneDigits(lines[k]).value.0 < 10 && PartOneDigits(lines[k]).value.1 < 10
    {
      var ds := DigitsOf(lines[k]);
      DigitsBelowTen(lines[k], 0);
      DigitsBelowTen(lines[k], |ds| - 1);
    }
    CalibrationBound(lines, PartOneDigits);
  }

  /** One line more adds its value. */
  lemma CalibrationStep(lines: seq<string>, k: nat, digits: string -> Option<(nat, nat)>)
    requires k < |lines| && Calibration(lines[..k], digits).Some? && digits(lines[k]).Some?
    ensures Calibration(lines[..k + 1], digits)
            == Some(Calibration(lines[..k], digits).value + Value(digits(lines[k]).value))
  {
    assert lines[..k + 1][..k] == lines[..k];
  }

  /** A line without digits makes the whole calibration fail. */
  lemma CalibrationNone(lines: seq<string>, k: nat, digits: string -> Option<(nat, nat)>)
    requires k < |lines| && digits(lines[k]).None?
    ensures Calibration(lines, digits).None?
  {
    CalibrationDefined(lines, digits);
  }
}
