/** Text helpers shared by the solutions: the string splitting and integer
    parsing that the Rust standard library provides (`split_once`, `split`,
    `str::parse`), written out so that their behaviour is explicit. */
module Common {

  datatype Option<T> = None | Some(value: T)

  /** `sep` occurs in `s` starting at index `i`. */
  predicate OccursAt(s: string, sep: string, i: nat)
  {
    i + |sep| <= |s| && s[i..i + |sep|] == sep
  }

  /** First index at or after `from` where `sep` occurs, as `str::find` does. */
  function IndexOf(s: string, sep: string, from: nat): (r: Option<nat>)
    requires from <= |s|
    ensures r.Some? ==> from <= r.value <= |s| && OccursAt(s, sep, r.value)
    ensures r.Some? ==> forall j :: from <= j < r.value ==> !OccursAt(s, sep, j)
    ensures r.None? ==> forall j :: from <= j <= |s| ==> !OccursAt(s, sep, j)
    decreases |s| - from
  {
    if OccursAt(s, sep, from) then Some(from)
    else if from == |s| then None
    else IndexOf(s, sep, from + 1)
  }

  /** `str::split_once`: the text before and after the first occurrence of `sep`. */
  function SplitOnce(s: string, sep: string): (r: Option<(string, string)>)
    ensures r.Some? ==> r.value.0 + sep + r.value.1 == s
    ensures r.Some? ==> forall j :: 0 <= j < |r.value.0| ==> !OccursAt(s, sep, j)
    ensures r.None? <==> forall j :: 0 <= j <= |s| ==> !OccursAt(s, sep, j)
  {
    match IndexOf(s, sep, 0)
    case None => None
    case Some(i) =>
      assert s == s[..i] + sep + s[i + |sep|..];
      Some((s[..i], s[i + |sep|..]))
  }

  /** `str::split` with a non-empty separator: the pieces between the
      non-overlapping occurrences of `sep`, scanned from the left. */
  function Split(s: string, sep: string): (r: seq<string>)
    requires |sep| > 0
    ensures |r| >= 1
    decreases |s|
  {
    match SplitOnce(s, sep)
    case None => [s]
    case Some((before, after)) => [before] + Split(after, sep)
  }

  /** `str::lines` on text without carriage returns: the pieces between
      line feeds, without the empty piece after a final line feed. */
  function Lines(s: string): seq<string>
  {
    var pieces := Split(s, "\n");
    if pieces[|pieces| - 1] == "" then pieces[..|pieces| - 1] else pieces
  }

  /** Lines written one after another, each ended by a line feed, are read
      back by `Lines`. */
  lemma {:induction false} LinesRoundTrip(ls: seq<string>)
    requires |ls| >= 1 && forall k :: 0 <= k < |ls| ==> Free(ls[k], "\n")
    ensures Lines(Join(ls, "\n") + "\n") == ls
  {
    JoinSnoc(ls, "\n");
    assert Free("", "\n");
    var all := ls + [""];
    assert forall k :: 0 <= k < |all| ==> Free(all[k], "\n");
    SplitJoin(all, "\n");
    assert all[..|ls|] == ls;
  }

  /** One empty piece more at the end of a join is one separator more. */
  lemma {:induction false} JoinSnoc(parts: seq<string>, sep: string)
    requires |parts| >= 1
    ensures Join(parts + [""], sep) == Join(parts, sep) + sep
    decreases |parts|
  {
    if |parts| > 1 {
      JoinSnoc(parts[1..], sep);
      assert (parts + [""])[1..] == parts[1..] + [""];
    }
  }

  /** Concatenation of `parts` with `sep` between neighbours. */
  function Join(parts: seq<string>, sep: string): string
    requires |parts| >= 1
  {
    if |parts| == 1 then parts[0] else parts[0] + sep + Join(parts[1..], sep)
  }

  /** Splitting loses nothing: joining the pieces gives the text back. */
  lemma {:induction false} JoinSplit(s: string, sep: string)
    requires |sep| > 0
    ensures Join(Split(s, sep), sep) == s
    decreases |s|
  {
    match SplitOnce(s, sep)
    case None =>
    case Some((before, after)) =>
      JoinSplit(after, sep);
      assert Split(s, sep) == [before] + Split(after, sep);
      assert (([before] + Split(after, sep))[1..]) == Split(after, sep);
  }

  /** `sep` occurs nowhere in `s`. */
  predicate Free(s: string, sep: string)
  {
    forall j :: 0 <= j <= |s| ==> !OccursAt(s, sep, j)
  }

  /** An occurrence inside a prefix is an occurrence in the whole text. */
  lemma {:induction false} PrefixOccurrence(s: string, sep: string, i: nat, j: nat)
    requires i <= |s| && OccursAt(s[..i], sep, j)
    ensures OccursAt(s, sep, j)
  {
    assert s[j..j + |sep|] == s[..i][j..j + |sep|];
  }

  /** The text before the first occurrence of the separator is free of it. */
  lemma {:induction false} BeforeFree(s: string, sep: string)
    requires |sep| > 0 && SplitOnce(s, sep).Some?
    ensures Free(SplitOnce(s, sep).value.0, sep)
  {
    var before := SplitOnce(s, sep).value.0;
    assert before == s[..|before|];
    forall j | 0 <= j <= |before| && OccursAt(before, sep, j)
      ensures false
    {
      PrefixOccurrence(s, sep, |before|, j);
    }
  }

  /** No piece of a split contains the separator. */
  lemma {:induction false} SplitPiecesFree(s: string, sep: string, k: nat)
    requires |sep| > 0 && k < |Split(s, sep)|
    ensures Free(Split(s, sep)[k], sep)
    decreases |s|
  {
    match SplitOnce(s, sep)
    case None =>
    case Some((before, after)) =>
      assert Split(s, sep) == [before] + Split(after, sep);
      if k == 0 {
        BeforeFree(s, sep);
      } else {
        SplitPiecesFree(after, sep, k - 1);
      }
  }

  /** A text without the character `c` holds no occurrence of `[c]`. */
  lemma {:induction false} FreeChar(s: string, c: char)
    requires c !in s
    ensures Free(s, [c])
  {
    forall j | 0 <= j <= |s|
      ensures !OccursAt(s, [c], j)
    {
      if j < |s| {
        assert s[j..j + 1] == [s[j]];
      }
    }
  }

  /** With a one-character separator absent from `a`, `split_once` cuts
      `a + sep + b` right after `a`. */
  lemma {:induction false} SplitOnceAt(a: string, sep: string, b: string)
    requires |sep| == 1 && Free(a, sep)
    ensures SplitOnce(a + sep + b, sep) == Some((a, b))
  {
    var s := a + sep + b;
    assert s[|a|..|a| + 1] == sep;
    assert OccursAt(s, sep, |a|);
    forall j | 0 <= j < |a|
      ensures !OccursAt(s, sep, j)
    {
      assert s[j..j + 1] == a[j..j + 1];
      assert !OccursAt(a, sep, j);
    }
    var r := IndexOf(s, sep, 0);
    assert r == Some(|a|);
    assert s[..|a|] == a && s[|a| + 1..] == b;
  }

  /** Splitting pieces joined by a one-character separator that none of
      them contains gives the pieces back. */
  lemma {:induction false} SplitJoin(parts: seq<string>, sep: string)
    requires |sep| == 1 && |parts| >= 1
    requires forall k :: 0 <= k < |parts| ==> Free(parts[k], sep)
    ensures Split(Join(parts, sep), sep) == parts
    decreases |parts|
  {
    if |parts| == 1 {
      assert Free(parts[0], sep);
    } else {
      SplitJoin(parts[1..], sep);
      SplitCons(parts[0], sep, parts[1..]);
      assert [parts[0]] + parts[1..] == parts;
    }
  }

  /** One piece more in front of the joined text is one piece more in
      front of the split. */
  lemma {:induction false} SplitCons(first: string, sep: string, rest: seq<string>)
    requires |sep| == 1 && |rest| >= 1 && Free(first, sep)
    ensures Split(first + sep + Join(rest, sep), sep) == [first] + Split(Join(rest, sep), sep)
  {
    SplitOnceAt(first, sep, Join(rest, sep));
  }

  predicate IsDigit(c: char) { '0' <= c <= '9' }

  predicate AllDigits(s: string) { forall i :: 0 <= i < |s| ==> IsDigit(s[i]) }

  function DigitValue(c: char): (d: nat)
    requires IsDigit(c)
    ensures d < 10
  {
    c as int - '0' as int
  }

  /** The decimal reading of a string of digits. */
  function DecimalValue(s: string): nat
    requires AllDigits(s)
  {
    if s == [] then 0 else 10 * DecimalValue(s[..|s| - 1]) + DigitValue(s[|s| - 1])
  }

  /** The digits of `n` in decimal, without leading zeros ("0" for zero). */
  function Decimal(n: nat): (s: string)
    ensures |s| >= 1 && AllDigits(s)
  {
    if n < 10 then ['0' + n as char] else Decimal(n / 10) + ['0' + (n % 10) as char]
  }

  /** Reading a rendered number gives the number back. */
  lemma {:induction false} DecimalRoundTrip(n: nat)
    ensures DecimalValue(Decimal(n)) == n
  {
    if n >= 10 {
      DecimalRoundTrip(n / 10);
      var s := Decimal(n);
      assert s[..|s| - 1] == Decimal(n / 10);
    }
  }

  /** `str::parse` for an unsigned integer type whose largest value is `max`:
      an optional '+', then at least one digit and nothing else; a value
      above `max` is an overflow error. */
  function ParseNat(s: string, max: nat): (r: Option<nat>)
    ensures r.Some? ==> r.value <= max
    ensures r.Some? <==> var t := if |s| > 0 && s[0] == '+' then s[1..] else s;
                         |t| > 0 && AllDigits(t) && DecimalValue(t) <= max
  {
    var t := if |s| > 0 && s[0] == '+' then s[1..] else s;
    if |t| > 0 && AllDigits(t) && DecimalValue(t) <= max then Some(DecimalValue(t)) else None
  }

  /** `str::parse` for a signed integer type with range [min, max]: an
      optional sign, then at least one digit and nothing else. */
  function ParseInt(s: string, min: int, max: int): (r: Option<int>)
    ensures r.Some? ==> min <= r.value <= max
  {
    var negative := |s| > 0 && s[0] == '-';
    var t := if |s| > 0 && (s[0] == '+' || s[0] == '-') then s[1..] else s;
    if |t| > 0 && AllDigits(t) then
      var v: int := if negative then -(DecimalValue(t) as int) else DecimalValue(t);
      if min <= v <= max then Some(v) else None
    else None
  }

  /** Parsing a rendered value gives it back. */
  lemma {:induction false} ParseNatDecimal(n: nat, max: nat)
    requires n <= max
    ensures ParseNat(Decimal(n), max) == Some(n)
  {
    DecimalRoundTrip(n);
  }

  const U8_MAX: nat := 0xFF
  const U16_MAX: nat := 0xFFFF
  const U32_MAX: nat := 0xFFFF_FFFF
  const U64_MAX: nat := 0xFFFF_FFFF_FFFF_FFFF
  const I32_MIN: int := -0x8000_0000
  const I32_MAX: int := 0x7FFF_FFFF
  const I64_MIN: int := -0x8000_0000_0000_0000
  const I64_MAX: int := 0x7FFF_FFFF_FFFF_FFFF

  /** Sum of a sequence of integers. */
  function Sum(s: seq<int>): int
  {
    if s == [] then 0 else Sum(s[..|s| - 1]) + s[|s| - 1]
  }

  /** The number of elements of `s` that satisfy `p`. */
  function CountWhere<T>(s: seq<T>, p: T -> bool): (n: nat)
    ensures n <= |s|
  {
    if s == [] then 0 else CountWhere(s[..|s| - 1], p) + (if p(s[|s| - 1]) then 1 else 0)
  }

  /** `split_ascii_whitespace` for lines whose only whitespace is the
      space: the non-empty pieces between spaces. */
  function Words(line: string): seq<string>
  {
    NonEmpty(Split(line, " "))
  }

  function NonEmpty(pieces: seq<string>): (ws: seq<string>)
    ensures forall k :: 0 <= k < |ws| ==> ws[k] != []
  {
    if pieces == [] then []
    else if pieces[0] == [] then NonEmpty(pieces[1..])
    else [pieces[0]] + NonEmpty(pieces[1..])
  }

  function Abs(a: int): nat
  {
    if a >= 0 then a else -a
  }

  /** Rust's `/` on signed integers: the quotient truncated toward zero. */
  function TDiv(a: int, b: int): int
    requires b != 0
  {
    if (a >= 0) == (b > 0) then Abs(a) / Abs(b) else -(Abs(a) / Abs(b))
  }

  /** Rust's `%` on signed integers: the remainder of `TDiv`, with the
      dividend's sign. */
  function TRem(a: int, b: int): int
    requires b != 0
  {
    if a >= 0 then Abs(a) % Abs(b) else -(Abs(a) % Abs(b))
  }

  /** A prefix one longer is the prefix and the next element. */
  lemma PrefixSnoc<T>(s: seq<T>, k: nat)
    requires k < |s|
    ensures s[..k + 1] == s[..k] + [s[k]]
  {
  }

  /** The truncating quotient and remainder rebuild the dividend. */
  lemma {:induction false} TDivRem(a: int, b: int)
    requires b != 0
    ensures a == b * TDiv(a, b) + TRem(a, b)
    ensures Abs(TRem(a, b)) < Abs(b)
  {
    var n: int, d: int := Abs(a), Abs(b);
    var q: int, m: int := n / d, n % d;
    assert n == d * q + m;
    if a >= 0 && b > 0 {
      assert b * TDiv(a, b) == d * q;
    } else if a >= 0 {
      assert b * TDiv(a, b) == (-d) * (-q);
    } else if b > 0 {
      assert b * TDiv(a, b) == d * (-q);
    } else {
      assert b * TDiv(a, b) == (-d) * q;
    }
  }

  /** A multiple of a positive number that lies in `[0, d)` is zero. */
  lemma {:induction false} SmallMultiple(d: int, e: int)
    requires d > 0 && 0 <= d * e < d
    ensures e == 0
  {
  }

  lemma {:induction false} DivOfMultiple(x: nat, d: nat)
    requires d > 0
    ensures (x * d) / d == x && (x * d) % d == 0
  {
    var n: int := x * d;
    var k: int, m: int := n / d, n % d;
    assert n == d * k + m;
    assert d * (x - k) == m;
    SmallMultiple(d, x - k);
  }

  /** Division is determined by any quotient and remainder that fit. */
  lemma {:induction false} DivUnique(a: int, d: int, q: int, r: int)
    requires d > 0 && 0 <= r < d && a == d * q + r
    ensures a / d == q && a % d == r
  {
    var k: int, m: int := a / d, a % d;
    assert a == d * k + m;
    if m >= r {
      assert d * (q - k) == m - r;
      SmallMultiple(d, q - k);
    } else {
      assert d * (k - q) == r - m;
      SmallMultiple(d, k - q);
    }
  }

  /** An exact division is undone by multiplying back. */
  lemma {:induction false} TDivExact(q: int, b: int)
    requires b != 0
    ensures TDiv(q * b, b) == q && TRem(q * b, b) == 0
  {
    var d := Abs(b);
    assert Abs(q * b) == Abs(q) * d;
    DivOfMultiple(Abs(q), d);
  }

  /** The length of the run of ASCII digits at the start of `s`. */
  function DigitRun(s: string): (n: nat)
    ensures n <= |s| && AllDigits(s[..n]) && (n < |s| ==> !IsDigit(s[n]))
  {
    if s == [] || !IsDigit(s[0]) then 0
    else
      var n := 1 + DigitRun(s[1..]);
      assert s[..n] == [s[0]] + s[1..][..n - 1];
      n
  }

  /** A run of digits read as a number up to `max`, and what follows it:
      `map_res(recognize(digit1), str::parse)`, or nom's own unsigned
      parsers. */
  function Number(s: string, max: nat): (r: Option<(nat, string)>)
    ensures r.Some? ==> r.value.0 <= max && |r.value.1| < |s|
  {
    var n := DigitRun(s);
    if n == 0 then None
    else
      match ParseNat(s[..n], max)
      case None => None
      case Some(v) => Some((v, s[n..]))
  }

  function Tag(s: string, t: string): (r: Option<string>)
    ensures r.Some? ==> s == t + r.value
  {
    if |t| <= |s| && s[..|t|] == t then
      assert s == s[..|t|] + s[|t|..];
      Some(s[|t|..])
    else None
  }

  lemma {:induction false} DigitRunDecimal(n: nat, rest: string)
    requires rest == [] || !IsDigit(rest[0])
    ensures DigitRun(Decimal(n) + rest) == |Decimal(n)|
    decreases |Decimal(n)|
  {
    DigitRunAll(Decimal(n), rest);
  }

  lemma {:induction false} DigitRunAll(d: string, rest: string)
    requires AllDigits(d) && (rest == [] || !IsDigit(rest[0]))
    ensures DigitRun(d + rest) == |d|
    decreases |d|
  {
    if d != [] {
      assert (d + rest)[1..] == d[1..] + rest;
      DigitRunAll(d[1..], rest);
    } else {
      assert d + rest == rest;
    }
  }

  lemma {:induction false} NumberRoundTrip(n: nat, max: nat, rest: string)
    requires n <= max && (rest == [] || !IsDigit(rest[0]))
    ensures Number(Decimal(n) + rest, max) == Some((n, rest))
  {
    var s := Decimal(n) + rest;
    DigitRunDecimal(n, rest);
    assert s[..|Decimal(n)|] == Decimal(n) && s[|Decimal(n)|..] == rest;
    ParseNatDecimal(n, max);
  }

  lemma {:induction false} TagRoundTrip(t: string, rest: string)
    ensures Tag(t + rest, t) == Some(rest)
  {
    assert (t + rest)[..|t|] == t && (t + rest)[|t|..] == rest;
  }

  /** Every line through `parse`, failing if any line fails. */
  function ParseEach<T>(lines: seq<string>, parse: string -> Option<T>): (r: Option<seq<T>>)
    ensures r.Some? <==> forall k :: 0 <= k < |lines| ==> parse(lines[k]).Some?
    ensures r.Some? ==> |r.value| == |lines| &&
                        forall k :: 0 <= k < |lines| ==> Some(r.value[k]) == parse(lines[k])
  {
    if lines == [] then Some([])
    else
      match (parse(lines[0]), ParseEach(lines[1..], parse))
      case (Some(x), Some(xs)) => Some([x] + xs)
      case _ => None
  }
}
