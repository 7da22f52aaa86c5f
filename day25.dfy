/** Day 25: balanced base-five ("SNAFU") numerals. Digits are '=', '-',
    '0', '1', '2' for -2 … 2; the rightmost digit has weight 1 and each
    step to the left multiplies the weight by five. */
module Day25 {

  predicate IsSnafuDigit(c: char)
  {
    c == '=' || c == '-' || c == '0' || c == '1' || c == '2'
  }

  predicate IsSnafu(s: string)
  {
    forall i :: 0 <= i < |s| ==> IsSnafuDigit(s[i])
  }

  /** The value of one digit; any other character panics in the source. */
  function DigitValue(c: char): (d: int)
    requires IsSnafuDigit(c)
    ensures -2 <= d <= 2
  {
    match c
    case '=' => -2
    case '-' => -1
    case '0' => 0
    case '1' => 1
    case '2' => 2
  }

  function Pow5(k: nat): (p: nat)
    ensures p >= 1
  {
    if k == 0 then 1 else 5 * Pow5(k - 1)
  }

  /** The weighted sum of the digits: the leftmost of `|s|` digits weighs
      5^(|s|-1). */
  function SnafuValue(s: string): int
    requires IsSnafu(s)
  {
    if s == [] then 0 else DigitValue(s[0]) * Pow5(|s| - 1) + SnafuValue(s[1..])
  }

  /** A line longer than this overflows the `i64` weight. */
  const MaxDigits: nat := 27

  /** The decoding loop of `read_elves`: the digits from the right, the
      weight growing by five after each. */
  method Decode(line: string) returns (snafu: int)
    requires IsSnafu(line) && |line| <= MaxDigits
    ensures snafu == SnafuValue(line)
  {
    snafu := 0;
    var base := 1;
    var k := |line|;
    while k > 0
      invariant 0 <= k <= |line|
      invariant snafu == SnafuValue(line[k..]) && base == Pow5(|line| - k)
    {
      k := k - 1;
      assert line[k..][1..] == line[k + 1..];
      snafu := snafu + DigitValue(line[k]) * base;
      base := base * 5;
    }
  }

  /** Appending a digit on the right multiplies the value by five and adds
      the digit. */
  lemma {:induction false} ValueSnoc(t: string, c: char)
    requires IsSnafu(t) && IsSnafuDigit(c)
    ensures IsSnafu(t + [c])
    ensures SnafuValue(t + [c]) == 5 * SnafuValue(t) + DigitValue(c)
  {
    if t != [] {
      assert (t + [c])[1..] == t[1..] + [c];
      ValueSnoc(t[1..], c);
      var d := DigitValue(t[0]);
      var p := Pow5(|t| - 1);
      assert d * (5 * p) == 5 * (d * p);
    }
  }

  /** The digit written for a remainder, as `part_one` writes it: 3 and 4
      become '=' and '-' and carry into the next place. */
  function DigitChar(r: nat): (c: char)
    requires r < 5
    ensures IsSnafuDigit(c)
  {
    if r == 0 then '0' else if r == 1 then '1' else if r == 2 then '2' else if r == 3 then '=' else '-'
  }

  function Carry(r: nat): nat
  {
    if r == 3 then 2 else if r == 4 then 1 else 0
  }

  /** The numeral `part_one` writes for `n`, most significant digit first;
      zero is written as the empty string. */
  function Snafu(n: nat): (s: string)
    decreases n
  {
    if n == 0 then [] else Snafu((n + Carry(n % 5)) / 5) + [DigitChar(n % 5)]
  }

  lemma {:induction false} SnafuDigits(n: nat)
    ensures IsSnafu(Snafu(n))
    decreases n
  {
    if n > 0 {
      SnafuDigits((n + Carry(n % 5)) / 5);
    }
  }

  lemma {:induction false} SnafuStep(n: nat, q: nat, m: nat)
    requires n > 0 && m == n % 5 && q == (n + Carry(m)) / 5
    ensures Snafu(n) == Snafu(q) + [DigitChar(m)]
  {
  }

  /** One place of the encoding: the number is five times the rest plus
      the digit written. */
  lemma {:induction false} DigitStep(n: nat)
    ensures n == 5 * ((n + Carry(n % 5)) / 5) + DigitValue(DigitChar(n % 5))
  {
    var m := n % 5;
    var k := n / 5;
    assert n == 5 * k + m;
    if m == 3 {
      assert (n + 2) / 5 == k + 1;
    } else if m == 4 {
      assert (n + 1) / 5 == k + 1;
    } else {
      assert n / 5 == k;
    }
  }

  /** Reading the written numeral gives the number back. */
  lemma {:induction false} SnafuRoundTrip(n: nat)
    ensures IsSnafu(Snafu(n)) && SnafuValue(Snafu(n)) == n
    decreases n
  {
    SnafuDigits(n);
    if n > 0 {
      SnafuDigits((n + Carry(n % 5)) / 5);
      var q := (n + Carry(n % 5)) / 5;
      SnafuRoundTrip(q);
      ValueSnoc(Snafu(q), DigitChar(n % 5));
      DigitStep(n);
    }
  }

  /** A positive number's numeral starts with '1' or '2', never with a
      zero or a negative digit. */
  lemma {:induction false} SnafuLeading(n: nat)
    requires n > 0
    ensures Snafu(n)[0] == '1' || Snafu(n)[0] == '2'
    decreases n
  {
    var q := (n + Carry(n % 5)) / 5;
    if q > 0 {
      SnafuLeading(q);
    }
  }

  function Reverse(s: string): (r: string)
    ensures |r| == |s| && forall i :: 0 <= i < |s| ==> r[i] == s[|s| - 1 - i]
  {
    if s == [] then [] else [s[|s| - 1]] + Reverse(s[..|s| - 1])
  }

  lemma {:induction false} ReverseSnoc(s: string, c: char)
    ensures Reverse(s + [c]) == [c] + Reverse(s)
  {
    assert (s + [c])[..|s|] == s;
  }

  /** The encoding loop of `part_one`: push the low digit, add the carry,
      divide by five, and reverse at the end. A number that is not positive
      gives the empty string, since the loop never runs. */
  method Encode(s0: int) returns (r: string)
    ensures s0 > 0 ==> r == Snafu(s0)
    ensures s0 <= 0 ==> r == []
  {
    var s := s0;
    var res: seq<char> := [];
    while s > 0
      invariant s0 > 0 ==> s >= 0 && Snafu(s0) == Snafu(s) + Reverse(res)
      invariant s0 <= 0 ==> s == s0 && res == []
      decreases if s > 0 then s else 0
    {
      ghost var before := s;
      var m := s % 5;
      if m == 0 {
        res := res + ['0'];
      } else if m == 1 {
        res := res + ['1'];
      } else if m == 2 {
        res := res + ['2'];
      } else if m == 3 {
        res := res + ['='];
        s := s + 2;
      } else {
        res := res + ['-'];
        s := s + 1;
      }
      s := s / 5;
      ghost var rest := res[..|res| - 1];
      assert res == rest + [DigitChar(m)];
      EncodeStep(before, s, m, rest);
    }
    r := Reverse(res);
    assert Reverse(r) == res by {
      assert forall i :: 0 <= i < |res| ==> Reverse(r)[i] == res[i];
    }
    ReverseReverse(res);
  }

  /** One round of the encoding loop moves the low digit from the number
      still to encode to the digits pushed so far, keeping the numeral. */
  lemma {:induction false} EncodeStep(n: nat, q: nat, m: nat, pushed: string)
    requires n > 0 && m == n % 5 && q == (n + Carry(m)) / 5
    ensures Snafu(n) + Reverse(pushed) == Snafu(q) + Reverse(pushed + [DigitChar(m)])
  {
    ReverseSnoc(pushed, DigitChar(m));
    SnafuStep(n, q, m);
    calc {
      Snafu(n) + Reverse(pushed);
      (Snafu(q) + [DigitChar(m)]) + Reverse(pushed);
      Snafu(q) + ([DigitChar(m)] + Reverse(pushed));
      Snafu(q) + Reverse(pushed + [DigitChar(m)]);
    }
  }

  lemma {:induction false} ReverseReverse(s: string)
    ensures Reverse(Reverse(s)) == s
  {
    assert forall i :: 0 <= i < |s| ==> Reverse(Reverse(s))[i] == s[i];
  }

  /** The sum of the decoded lines. */
  function Total(lines: seq<string>): int
    requires forall i :: 0 <= i < |lines| ==> IsSnafu(lines[i])
  {
    if lines == [] then 0 else Total(lines[..|lines| - 1]) + SnafuValue(lines[|lines| - 1])
  }

  /** `part_one`: decode every line, sum, and write the sum as a numeral. */
  method PartOne(lines: seq<string>) returns (r: string)
    requires forall i :: 0 <= i < |lines| ==> IsSnafu(lines[i]) && |lines[i]| <= MaxDigits
    ensures IsSnafu(r)
    ensures Total(lines) > 0 ==> SnafuValue(r) == Total(lines) && (r[0] == '1' || r[0] == '2')
    ensures Total(lines) <= 0 ==> r == []
  {
    var sum := 0;
    for i := 0 to |lines|
      invariant sum == Total(lines[..i])
    {
      var v := Decode(lines[i]);
      assert lines[..i + 1][..i] == lines[..i];
      sum := sum + v;
    }
    assert lines[..|lines|] == lines;
    r := Encode(sum);
    if sum > 0 {
      SnafuRoundTrip(sum);
      SnafuLeading(sum);
    }
  }

  /** The leading digits of the example's numeral. */
  lemma {:induction false} ExamplePrefix()
    ensures Snafu(196) == ['2', '=', '-', '1']
  {
    SnafuStep(2, 0, 2);
    assert Snafu(2) == ['2'];
    SnafuStep(8, 2, 3);
    assert Snafu(8) == ['2', '='];
    SnafuStep(39, 8, 4);
    assert Snafu(39) == ['2', '=', '-'];
    SnafuStep(196, 39, 1);
  }

  /** The example's sum, 4890, is written "2=-1=0". */
  lemma {:induction false} ExampleNumeral()
    ensures Snafu(4890) == ['2', '=', '-', '1', '=', '0']
  {
    ExamplePrefix();
    SnafuStep(978, 196, 3);
    assert Snafu(978) == ['2', '=', '-', '1', '='];
    SnafuStep(4890, 978, 0);
  }
}
