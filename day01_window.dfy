/** Day 1, part two: digits may also be spelled out, "one" to "nine", and
    spelled digits may overlap ("eightwo" holds an 8 and then a 2). The
    source reads the line's UTF-8 bytes one at a time and keeps the most
    recent ones in a 64-bit window, newest byte lowest, so that a spelled
    digit is recognised on the byte that completes it. */
module Day01Window {
  import opened Common
  import opened Day01

  type Byte = b: int | 0 <= b < 256

  /** The UTF-8 encoding of one character. */
  function Utf8(c: char): (r: seq<Byte>)
    ensures 1 <= |r| <= 4
    ensures c as int < 0x80 ==> r == [c as int]
    ensures c as int >= 0x80 ==> forall k :: 0 <= k < |r| ==> r[k] >= 0x80
  {
    var n := c as int;
    if n < 0x80 then [n]
    else if n < 0x800 then [0xC0 + n / 0x40, 0x80 + n % 0x40]
    else if n < 0x1_0000 then [0xE0 + n / 0x1000, 0x80 + n / 0x40 % 0x40, 0x80 + n % 0x40]
    else [0xF0 + n / 0x4_0000, 0x80 + n / 0x1000 % 0x40, 0x80 + n / 0x40 % 0x40, 0x80 + n % 0x40]
  }

  /** `str::bytes`: the UTF-8 encoding of a string. */
  function Bytes(s: string): seq<Byte>
  {
    if s == [] then [] else Bytes(s[..|s| - 1]) + Utf8(s[|s| - 1])
  }

  /** A string of ASCII characters is encoded one byte per character. */
  lemma {:induction false} AsciiBytes(s: string)
    requires forall i :: 0 <= i < |s| ==> s[i] as int < 0x80
    ensures |Bytes(s)| == |s|
    ensures forall i :: 0 <= i < |s| ==> Bytes(s)[i] == s[i] as int
    decreases |s|
  {
    if s != [] {
      var init := s[..|s| - 1];
      AsciiBytes(init);
    }
  }

  /** `256^k`, that is `1 << (8 * k)`. */
  function Pow256(k: nat): (p: nat)
    ensures p >= 1
  {
    if k == 0 then 1 else 256 * Pow256(k - 1)
  }

  /** `2^64`: a `u64` keeps its value modulo this. */
  const WINDOW: nat := 0x1_0000_0000_0000_0000

  lemma WindowIsEightBytes()
    ensures Pow256(8) == WINDOW
  {
    assert Pow256(4) == 0x1_0000_0000;
  }

  lemma {:induction false} PowMonotone(i: nat, j: nat)
    requires i <= j
    ensures Pow256(i) <= Pow256(j)
    decreases j
  {
    if i < j {
      PowMonotone(i, j - 1);
    }
  }

  lemma ShiftAdd(p: int, q: int, r: int, c: int)
    ensures (p * q + r) * 256 + c == p * (q * 256) + (r * 256 + c)
  {
  }

  /** Dividing `q * d + r` by `d`, for `r` below `d`. */
  lemma SplitDiv(q: int, d: int, r: int)
    requires d > 0 && 0 <= r < d
    ensures (q * d + r) / d == q && (q * d + r) % d == r
  {
    DivUnique(q * d + r, d, q, r);
  }

  lemma SmallMod(x: int, d: int)
    requires 0 <= x < d
    ensures x % d == x
  {
    DivUnique(x, d, 0, x);
  }

  lemma ScaleAtLeast(x: int, p: int)
    requires x >= 1 && p >= 0
    ensures x * p >= p
  {
  }

  /** Bytes read as one number, first byte highest: the value the source
      builds by shifting left eight bits and or-ing in each byte. */
  function Pack(bs: seq<Byte>): (v: nat)
    ensures v < Pow256(|bs|)
  {
    if bs == [] then 0 else Pack(bs[..|bs| - 1]) * 256 + bs[|bs| - 1]
  }

  /** Packing a concatenation shifts the front part over the back part. */
  lemma {:induction false} PackSplit(a: seq<Byte>, b: seq<Byte>)
    ensures Pack(a + b) == Pack(a) * Pow256(|b|) + Pack(b)
    decreases |b|
  {
    if b != [] {
      var b' := b[..|b| - 1];
      assert (a + b)[..|a + b| - 1] == a + b';
      PackSplit(a, b');
      ShiftAdd(Pack(a), Pow256(|b'|), Pack(b'), b[|b| - 1]);
      assert Pack(a + b) == Pack(a + b') * 256 + b[|b| - 1];
      assert Pack(b) == Pack(b') * 256 + b[|b| - 1];
      assert Pow256(|b|) == Pow256(|b'|) * 256;
    } else {
      assert a + b == a;
    }
  }

  /** The low `k` bytes of a packed value are the packing of the last `k`
      bytes. */
  lemma {:induction false} PackLow(bs: seq<Byte>, k: nat)
    requires k <= |bs|
    ensures Pack(bs) % Pow256(k) == Pack(bs[|bs| - k..])
  {
    var front, back := bs[..|bs| - k], bs[|bs| - k..];
    assert bs == front + back;
    PackSplit(front, back);
    SplitDiv(Pack(front), Pow256(k), Pack(back));
  }

  /** Different byte strings of one length pack to different numbers. */
  lemma {:induction false} PackInjective(a: seq<Byte>, b: seq<Byte>)
    requires |a| == |b| && Pack(a) == Pack(b)
    ensures a == b
    decreases |a|
  {
    if a != [] {
      var a', b' := a[..|a| - 1], b[..|b| - 1];
      SplitDiv(Pack(a'), 256, a[|a| - 1]);
      SplitDiv(Pack(b'), 256, b[|b| - 1]);
      PackInjective(a', b');
      assert a == a' + [a[|a| - 1]] && b == b' + [b[|b| - 1]];
    }
  }

  /** A packing whose first byte is not zero fills its top byte. */
  lemma {:induction false} PackLeading(w: seq<Byte>)
    requires |w| >= 1 && w[0] >= 1
    ensures Pack(w) >= Pow256(|w| - 1)
  {
    assert w == [w[0]] + w[1..];
    PackSplit([w[0]], w[1..]);
    assert Pack([w[0]]) == w[0] by {
      assert [w[0]][..0] == [];
    }
    ScaleAtLeast(w[0], Pow256(|w| - 1));
  }

  /** The last eight bytes, or all of them when there are fewer. */
  function LastEight(bs: seq<Byte>): (r: seq<Byte>)
    ensures |r| <= 8
  {
    if |bs| <= 8 then bs else bs[|bs| - 8..]
  }

  /** The window after reading `bs` holds exactly their last eight bytes,
      the newest lowest. */
  lemma {:induction false} WindowHoldsLastEight(bs: seq<Byte>)
    ensures Pack(bs) % WINDOW == Pack(LastEight(bs))
  {
    WindowIsEightBytes();
    if |bs| >= 8 {
      PackLow(bs, 8);
    } else {
      PowMonotone(|bs|, 8);
      SmallMod(Pack(bs), WINDOW);
    }
  }

  /** One more byte shifted into the window: `(window << 8) | c` on a `u64`
      drops the top byte and leaves the low byte free for `c`. */
  lemma {:induction false} WindowStep(bs: seq<Byte>, c: Byte)
    ensures ((Pack(bs) % WINDOW) * 256) % WINDOW + c == Pack(bs + [c]) % WINDOW
  {
    var all := bs + [c];
    assert all[..|all| - 1] == bs;
    WindowHoldsLastEight(bs);
    WindowHoldsLastEight(all);
    WindowIsEightBytes();
    var last := LastEight(bs);
    if |bs| < 8 {
      PowMonotone(|all|, 8);
      SmallMod(Pack(bs) * 256, WINDOW);
    } else {
      var rest := last[1..];
      DropTop(last);
      assert LastEight(all) == rest + [c];
      assert (rest + [c])[..|rest + [c]| - 1] == rest;
    }
  }

  /** Shifting eight packed bytes left by one byte in a `u64` loses the
      first of them. */
  lemma DropTop(last: seq<Byte>)
    requires |last| == 8
    ensures (Pack(last) * 256) % WINDOW == Pack(last[1..]) * 256
  {
    var rest := last[1..];
    assert last == [last[0]] + rest;
    PackSplit([last[0]], rest);
    assert Pack([last[0]]) == last[0] by {
      assert [last[0]][..0] == [];
    }
    WindowIsEightBytes();
    assert Pow256(8) == Pow256(7) * 256;
    DivUnique(Pack(last) * 256, WINDOW, last[0], Pack(rest) * 256);
  }

  /** Whether the bytes read so far end with `w`. */
  predicate EndsWith(bs: seq<Byte>, w: seq<Byte>)
  {
    |w| <= |bs| && bs[|bs| - |w|..] == w
  }

  /** Comparing the low bytes of the window with a word of one to eight
      bytes, the first of them not zero, tells exactly whether the bytes
      read so far end with that word. */
  lemma MatchIsSuffix(bs: seq<Byte>, w: seq<Byte>)
    requires 1 <= |w| <= 8 && w[0] >= 1
    ensures (Pack(bs) % WINDOW) % Pow256(|w|) == Pack(w) <==> EndsWith(bs, w)
  {
    WindowHoldsLastEight(bs);
    if |bs| >= |w| {
      MatchLong(bs, w);
    } else {
      MatchShort(bs, w);
    }
  }

  /** With at least `|w|` bytes read, the low bytes of the window are the
      last `|w|` bytes read. */
  lemma MatchLong(bs: seq<Byte>, w: seq<Byte>)
    requires |w| <= 8 && |bs| >= |w|
    ensures Pack(LastEight(bs)) % Pow256(|w|) == Pack(w) <==> EndsWith(bs, w)
  {
    var last := LastEight(bs);
    PackLow(last, |w|);
    assert last[|last| - |w|..] == bs[|bs| - |w|..];
    if Pack(bs[|bs| - |w|..]) == Pack(w) {
      PackInjective(bs[|bs| - |w|..], w);
    }
  }

  /** With fewer bytes read than the word has, the window is below the
      word's value. */
  lemma MatchShort(bs: seq<Byte>, w: seq<Byte>)
    requires 1 <= |w| && w[0] >= 1 && |bs| < |w|
    ensures Pack(bs) % Pow256(|w|) != Pack(w)
  {
    PowMonotone(|bs|, |w| - 1);
    PackLeading(w);
    SmallMod(Pack(bs), Pow256(|w|));
  }

  /** `end_matches`: builds the word's value byte by byte, then compares it
      with the window under a mask of the word's length, `window & mask`
      being `window % 256^|s|`. A word of eight bytes or more would shift
      past the width of a `u64`. */
  method EndMatches(window: nat, s: seq<Byte>) returns (b: bool)
    requires |s| <= 7
    ensures b <==> window % Pow256(|s|) == Pack(s)
  {
    var sVal: nat := 0;
    for i := 0 to |s|
      invariant sVal == Pack(s[..i])
    {
      assert s[..i + 1][..i] == s[..i];
      sVal := sVal * 256 + s[i];
    }
    assert s[..|s|] == s;
    var mask := Pow256(|s|) - 1;
    b := window % (mask + 1) == sVal;
  }

  /** The spelling of digit `d`. */
  function Spelled(d: nat): (s: string)
    requires 1 <= d <= 9
    ensures 3 <= |s| <= 5
    ensures forall k :: 0 <= k < |s| ==> 'a' <= s[k] <= 'z'
  {
    match d
    case 1 => "one"
    case 2 => "two"
    case 3 => "three"
    case 4 => "four"
    case 5 => "five"
    case 6 => "six"
    case 7 => "seven"
    case 8 => "eight"
    case _ => "nine"
  }

  /** The spelling's bytes, one per letter. */
  function Word(d: nat): (w: seq<Byte>)
    requires 1 <= d <= 9
    ensures |w| == |Spelled(d)|
    ensures forall k :: 0 <= k < |w| ==> w[k] == Spelled(d)[k] as int
  {
    var s := Spelled(d);
    seq(|s|, k requires 0 <= k < |s| => s[k] as int)
  }

  /** The word is the spelling as `str::as_bytes` gives it. */
  lemma WordIsBytes(d: nat)
    requires 1 <= d <= 9
    ensures Word(d) == Bytes(Spelled(d))
  {
    AsciiBytes(Spelled(d));
  }

  /** The last three bytes of a word. */
  function Tail(w: seq<Byte>): (Byte, Byte, Byte)
    requires |w| >= 3
  {
    (w[|w| - 3], w[|w| - 2], w[|w| - 1])
  }

  /** Which digit's spelling ends in the three letters `t`, given by their
      ASCII codes: "one", "two", "ree", "our", "ive", "six", "ven", "ght",
      "ine". */
  function SpelledBy(t: (Byte, Byte, Byte)): Option<nat>
  {
    match t
    case (111, 110, 101) => Some(1)
    case (116, 119, 111) => Some(2)
    case (114, 101, 101) => Some(3)
    case (111, 117, 114) => Some(4)
    case (105, 118, 101) => Some(5)
    case (115, 105, 120) => Some(6)
    case (118, 101, 110) => Some(7)
    case (103, 104, 116) => Some(8)
    case (105, 110, 101) => Some(9)
    case _ => None
  }

  /** The last three letters of a word name its digit. */
  lemma WordTail(d: nat)
    requires 1 <= d <= 9
    ensures SpelledBy(Tail(Word(d))) == Some(d)
  {
  }

  /** Reading the last byte of `bs` completes digit `d`: the byte is the
      digit's character, or the bytes end with its spelling. */
  predicate Completes(bs: seq<Byte>, d: nat)
    requires |bs| >= 1 && 1 <= d <= 9
  {
    bs[|bs| - 1] == '0' as int + d || EndsWith(bs, Word(d))
  }

  /** The first digit from `d` on, in the source's order one to nine, that
      the last byte completes. */
  function DetectFrom(bs: seq<Byte>, d: nat): (r: Option<nat>)
    requires |bs| >= 1 && 1 <= d <= 10
    ensures r.Some? ==> d <= r.value <= 9 && Completes(bs, r.value)
    ensures r.None? ==> forall e :: d <= e <= 9 ==> !Completes(bs, e)
    decreases 10 - d
  {
    if d == 10 then None
    else if Completes(bs, d) then Some(d)
    else DetectFrom(bs, d + 1)
  }

  /** The digit `get_digit` reports once the bytes `bs` have been read. */
  function Detect(bs: seq<Byte>): Option<nat>
    requires |bs| >= 1
  {
    DetectFrom(bs, 1)
  }

  /** A word ends in a letter, never in a digit character. */
  lemma WordEndsInLetter(d: nat)
    requires 1 <= d <= 9
    ensures 'a' as int <= Word(d)[|Word(d)| - 1] <= 'z' as int
  {
    var s := Spelled(d);
    assert Word(d)[|Word(d)| - 1] == s[|s| - 1] as int;
  }

  /** Bytes ending with a word end in a letter. */
  lemma EndsInLetter(bs: seq<Byte>, d: nat)
    requires 1 <= d <= 9 && EndsWith(bs, Word(d))
    ensures |bs| >= 1 && bs[|bs| - 1] >= 'a' as int
  {
    var u := Word(d);
    WordEndsInLetter(d);
    assert bs[|bs| - |u|..][|u| - 1] == u[|u| - 1];
  }

  /** Bytes that end with a word end in that word's last three letters. */
  lemma WordTailOf(bs: seq<Byte>, d: nat)
    requires 1 <= d <= 9 && EndsWith(bs, Word(d))
    ensures |bs| >= 3 && SpelledBy(Tail(bs)) == Some(d)
  {
    var u := Word(d);
    var n := |bs|;
    var su := bs[n - |u|..];
    assert Tail(u) == Tail(bs) by {
      assert su[|u| - 3] == bs[n - 3] && su[|u| - 2] == bs[n - 2] && su[|u| - 1] == bs[n - 1];
    }
    WordTail(d);
  }

  /** Bytes end with at most one of the words. */
  lemma EndsWithOneWord(bs: seq<Byte>, d: nat, e: nat)
    requires 1 <= d <= 9 && 1 <= e <= 9
    requires EndsWith(bs, Word(d)) && EndsWith(bs, Word(e))
    ensures d == e
  {
    WordTailOf(bs, d);
    WordTailOf(bs, e);
  }

  /** At most one digit is completed by a byte: a digit character ends no
      word, and two words never end at the same byte. */
  lemma CompletesUnique(bs: seq<Byte>, d: nat, e: nat)
    requires |bs| >= 1 && 1 <= d <= 9 && 1 <= e <= 9
    requires Completes(bs, d) && Completes(bs, e)
    ensures d == e
  {
    var u, v := Word(d), Word(e);
    if EndsWith(bs, u) && EndsWith(bs, v) {
      EndsWithOneWord(bs, d, e);
    } else if EndsWith(bs, u) {
      EndsInLetter(bs, d);
    } else if EndsWith(bs, v) {
      EndsInLetter(bs, e);
    }
  }

  /** A byte reports a digit exactly when it completes that digit, so a
      spelled digit is found even where it overlaps the one before it. */
  lemma DetectExactly(bs: seq<Byte>, d: nat)
    requires |bs| >= 1 && 1 <= d <= 9
    ensures Detect(bs) == Some(d) <==> Completes(bs, d)
  {
    var r := Detect(bs);
    if r.Some? && Completes(bs, d) {
      CompletesUnique(bs, d, r.value);
    }
  }

  /** A byte that is no digit character and ends no word's last three
      letters reports nothing. */
  lemma NothingCompleted(bs: seq<Byte>)
    requires |bs| >= 1 && !('1' as int <= bs[|bs| - 1] <= '9' as int)
    requires |bs| < 3 || SpelledBy(Tail(bs)).None?
    ensures Detect(bs).None?
  {
    var r := Detect(bs);
    if r.Some? {
      assert EndsWith(bs, Word(r.value));
      WordTailOf(bs, r.value);
    }
  }

  /** The digits reported while reading `bs`, in order. */
  function Found(bs: seq<Byte>): seq<nat>
  {
    if bs == [] then []
    else Found(bs[..|bs| - 1]) + (var d := Detect(bs); if d.Some? then [d.value] else [])
  }

  /** `c == b'0' + d || end_matches(window, word)`, the test the closure
      `get_digit` makes for digit `d`, which skips the window when the byte
      itself is the digit. */
  method DigitTest(ghost bs: seq<Byte>, c: Byte, window: nat, d: nat) returns (b: bool)
    requires |bs| >= 1 && c == bs[|bs| - 1] && window == Pack(bs) % WINDOW && 1 <= d <= 9
    ensures b <==> Completes(bs, d)
  {
    b := c == '0' as int + d;
    if !b {
      MatchIsSuffix(bs, Word(d));
      b := EndMatches(window, Word(d));
    }
  }

  /** The closure `get_digit`: tests the digits one to nine in order and
      reports the first that passes. */
  method GetDigit(ghost bs: seq<Byte>, c: Byte, window: nat) returns (r: Option<nat>)
    requires |bs| >= 1 && c == bs[|bs| - 1] && window == Pack(bs) % WINDOW
    ensures r == Detect(bs)
  {
    var hit := DigitTest(bs, c, window, 1);
    if hit {
      DetectExactly(bs, 1);
      return Some(1);
    }
    hit := DigitTest(bs, c, window, 2);
    if hit {
      DetectExactly(bs, 2);
      return Some(2);
    }
    hit := DigitTest(bs, c, window, 3);
    if hit {
      DetectExactly(bs, 3);
      return Some(3);
    }
    hit := DigitTest(bs, c, window, 4);
    if hit {
      DetectExactly(bs, 4);
      return Some(4);
    }
    hit := DigitTest(bs, c, window, 5);
    if hit {
      DetectExactly(bs, 5);
      return Some(5);
    }
    hit := DigitTest(bs, c, window, 6);
    if hit {
      DetectExactly(bs, 6);
      return Some(6);
    }
    hit := DigitTest(bs, c, window, 7);
    if hit {
      DetectExactly(bs, 7);
      return Some(7);
    }
    hit := DigitTest(bs, c, window, 8);
    if hit {
      DetectExactly(bs, 8);
      return Some(8);
    }
    hit := DigitTest(bs, c, window, 9);
    if hit {
      DetectExactly(bs, 9);
      return Some(9);
    }
    r := None;
  }

  /** The window after one more byte of `bs`. */
  lemma WindowAdvance(bs: seq<Byte>, i: nat)
    requires i < |bs|
    ensures ((Pack(bs[..i]) % WINDOW) * 256) % WINDOW + bs[i] == Pack(bs[..i + 1]) % WINDOW
  {
    PrefixSnoc(bs, i);
    WindowStep(bs[..i], bs[i]);
  }

  /** The digits found after one more byte of `bs`. */
  lemma FoundStep(bs: seq<Byte>, i: nat)
    requires i < |bs|
    ensures var d := Detect(bs[..i + 1]);
      Found(bs[..i + 1]) == Found(bs[..i]) + (if d.Some? then [d.value] else [])
  {
    assert bs[..i + 1][..i] == bs[..i];
  }

  /** The first and last digit of a line, as `get_digits_part2` computes
      them. */
  function PartTwoDigits(line: string): Option<(nat, nat)>
  {
    Ends(Found(Bytes(line)))
  }

  /** The first and last of the digits found, as `get_digits_part2` keeps
      them. */
  predicate Tracks(found: seq<nat>, first: Option<nat>, last: Option<nat>)
  {
    && first == (if found == [] then None else Some(found[0]))
    && last == (if found == [] then None else Some(found[|found| - 1]))
  }

  /** The loop body of `get_digits_part2`: shifts byte `i` into the window
      and records the digit it reports, if any. */
  method ReadByte(bs: seq<Byte>, i: nat, window: nat, first: Option<nat>, last: Option<nat>)
    returns (window': nat, first': Option<nat>, last': Option<nat>)
    requires i < |bs| && window == Pack(bs[..i]) % WINDOW && Tracks(Found(bs[..i]), first, last)
    ensures window' == Pack(bs[..i + 1]) % WINDOW && Tracks(Found(bs[..i + 1]), first', last')
  {
    var c := bs[i];
    WindowAdvance(bs, i);
    FoundStep(bs, i);
    window' := (window * 256) % WINDOW + c;
    var d := GetDigit(bs[..i + 1], c, window');
    first', last' := first, last;
    if d.Some? {
      if first.None? {
        first' := Some(d.value);
      }
      last' := Some(d.value);
    }
  }

  /** `get_digits_part2`: shifts each byte into the window, and keeps the
      first digit reported and overwrites the last. */
  method DigitsPartTwo(s: string) returns (r: Option<(nat, nat)>)
    ensures r == PartTwoDigits(s)
  {
    var bs := Bytes(s);
    var first: Option<nat> := None;
    var last: Option<nat> := None;
    var window: nat := 0;
    for i := 0 to |bs|
      invariant window == Pack(bs[..i]) % WINDOW
      invariant Tracks(Found(bs[..i]), first, last)
    {
      window, first, last := ReadByte(bs, i, window, first, last);
    }
    assert bs[..|bs|] == bs;
    if first.None? || last.None? {
      return None;
    }
    r := Some((first.value, last.value));
  }

  /** Every digit found is one to nine. */
  lemma {:induction false} FoundDigits(bs: seq<Byte>, k: nat)
    requires k < |Found(bs)|
    ensures 1 <= Found(bs)[k] <= 9
    decreases |bs|
  {
    var init := bs[..|bs| - 1];
    if k < |Found(init)| {
      FoundDigits(init, k);
    }
  }

  /** Each byte adds to the digits found exactly the digit it completes,
      whether or not its word overlaps the word before (the "t" of "eight"
      also starts "two", so "eightwo" gives 8 and then 2). */
  lemma FoundGrows(bs: seq<Byte>, i: nat, d: nat)
    requires i < |bs| && 1 <= d <= 9
    ensures Completes(bs[..i + 1], d) ==> Found(bs[..i + 1]) == Found(bs[..i]) + [d]
  {
    FoundStep(bs, i);
    DetectExactly(bs[..i + 1], d);
  }

  /** A byte that completes no digit adds nothing. */
  lemma FoundStays(bs: seq<Byte>, i: nat)
    requires i < |bs|
    requires forall d {:trigger Completes(bs[..i + 1], d)} :: 1 <= d <= 9 ==> !Completes(bs[..i + 1], d)
    ensures Found(bs[..i + 1]) == Found(bs[..i])
  {
    FoundStep(bs, i);
  }

  /** `part_two`: the sum of the lines' values, each line's value computed
      by `get_digits_part2`. */
  method PartTwo(input: string) returns (answer: Option<nat>)
    ensures answer == Calibration(Lines(input), PartTwoDigits)
  {
    var lines := Lines(input);
    var total := 0;
    for k := 0 to |lines|
      invariant Calibration(lines[..k], PartTwoDigits) == Some(total)
    {
      var next := AddLine(lines, k, total);
      if next.None? {
        CalibrationNone(lines, k, PartTwoDigits);
        return None;
      }
      total := next.value;
    }
    assert lines[..|lines|] == lines;
    answer := Some(total);
  }

  /** One step of the sum in `part_two`: line `k`'s value added to the
      total of the lines before it. */
  method AddLine(lines: seq<string>, k: nat, total: nat) returns (next: Option<nat>)
    requires k < |lines| && Calibration(lines[..k], PartTwoDigits) == Some(total)
    ensures next.None? ==> PartTwoDigits(lines[k]).None?
    ensures next.Some? ==> Calibration(lines[..k + 1], PartTwoDigits) == next
  {
    var ends := DigitsPartTwo(lines[k]);
    if ends.None? {
      return None;
    }
    CalibrationStep(lines, k, PartTwoDigits);
    next := Some(total + Value(ends.value));
  }

  /** A line's first and last digit are one to nine. */
  lemma LineDigits(line: string)
    ensures PartTwoDigits(line).Some? ==>
      1 <= PartTwoDigits(line).value.0 <= 9 && 1 <= PartTwoDigits(line).value.1 <= 9
  {
    var found := Found(Bytes(line));
    if found != [] {
      FoundDigits(Bytes(line), 0);
      FoundDigits(Bytes(line), |found| - 1);
    }
  }

  /** Part two's total is at most 99 per line. */
  lemma PartTwoBound(input: string)
    ensures var answer := Calibration(Lines(input), PartTwoDigits);
      answer.Some? ==> answer.value <= 99 * |Lines(input)|
  {
    var lines := Lines(input);
    forall k | 0 <= k < |lines| && PartTwoDigits(lines[k]).Some?
      ensures PartTwoDigits(lines[k]).value.0 < 10 && PartTwoDigits(lines[k]).value.1 < 10
    {
      LineDigits(lines[k]);
    }
    CalibrationBound(lines, PartTwoDigits);
  }
}
