/** Day 3: an engine schematic. Every maximal run of digits on a line is a
    number; every other character except '.' is a symbol. This module holds
    the numbers of one line and how the cells of a run name their number. */
module Day03 {
  import opened Common

  /** The numbers of a line: the decimal readings of its maximal runs of
      digits, left to right. */
  function Runs(s: string): seq<nat>
  {
    if s == [] then []
    else
      var init, c := s[..|s| - 1], s[|s| - 1];
      var r := Runs(init);
      if !IsDigit(c) then r
      else if init != [] && IsDigit(init[|init| - 1]) && r != [] then Extend(r, DigitValue(c))
      else r + [DigitValue(c)]
  }

  /** The numbers with one more decimal digit `d` appended to the last. */
  function Extend(r: seq<nat>, d: nat): (r': seq<nat>)
    requires r != []
    ensures |r'| == |r| && r'[..|r| - 1] == r[..|r| - 1]
  {
    r[..|r| - 1] + [10 * r[|r| - 1] + d]
  }

  /** Extending the last number leaves the numbers before it alone. */
  lemma ExtendAfter(ra: seq<nat>, r: seq<nat>, d: nat)
    requires r != []
    ensures Extend(ra + r, d) == ra + Extend(r, d)
  {
    var s := ra + r;
    assert s[..|s| - 1] == ra + r[..|r| - 1];
  }

  /** A run of digits alone is one number, its decimal reading. */
  lemma {:induction false} RunsOfDigits(w: string)
    requires w != [] && AllDigits(w)
    ensures Runs(w) == [DecimalValue(w)]
    decreases |w|
  {
    var init := w[..|w| - 1];
    if init != [] {
      assert AllDigits(init) by {
        assert forall i :: 0 <= i < |init| ==> init[i] == w[i];
      }
      RunsOfDigits(init);
    }
  }

  /** A character that is not a digit adds no number. */
  lemma SnocOther(t: string, c: char)
    requires !IsDigit(c)
    ensures Runs(t + [c]) == Runs(t)
  {
    assert (t + [c])[..|t|] == t;
  }

  /** A line that ends in a digit has a number. */
  lemma EndsInNumber(t: string)
    requires t != [] && IsDigit(t[|t| - 1])
    ensures Runs(t) != []
  {
  }

  /** A digit after a digit extends the last number by one decimal place. */
  lemma SnocExtend(t: string, c: char)
    requires IsDigit(c) && t != [] && IsDigit(t[|t| - 1])
    ensures Runs(t) != []
    ensures Runs(t + [c]) == Extend(Runs(t), DigitValue(c))
  {
    EndsInNumber(t);
    assert (t + [c])[..|t|] == t;
  }

  /** A digit at the start of a line or after a separator starts a new
      number. */
  lemma SnocStart(t: string, c: char)
    requires IsDigit(c) && (t == [] || !IsDigit(t[|t| - 1]))
    ensures Runs(t + [c]) == Runs(t) + [DigitValue(c)]
  {
    assert (t + [c])[..|t|] == t;
  }

  /** Two lines that end in the same character, or the first in a
      separator and the second empty, gain the same numbers from one more
      character. */
  lemma SameEnding(t: string, u: string, ra: seq<nat>, e: char)
    requires t != [] && Runs(t) == ra + Runs(u)
    requires u != [] ==> t[|t| - 1] == u[|u| - 1]
    requires u == [] ==> !IsDigit(t[|t| - 1])
    ensures Runs(t + [e]) == ra + Runs(u + [e])
  {
    if !IsDigit(e) {
      SnocOther(t, e);
      SnocOther(u, e);
    } else if u != [] && IsDigit(u[|u| - 1]) {
      SnocExtend(t, e);
      SnocExtend(u, e);
      ExtendAfter(ra, Runs(u), DigitValue(e));
    } else {
      SnocStart(t, e);
      SnocStart(u, e);
    }
  }

  /** A character that is not a digit separates the numbers on its left
      from those on its right. */
  lemma {:induction false} RunsSplit(a: string, c: char, b: string)
    requires !IsDigit(c)
    ensures Runs(a + [c] + b) == Runs(a) + Runs(b)
    decreases |b|
  {
    if b == [] {
      SnocOther(a, c);
      assert a + [c] + b == a + [c];
    } else {
      var b', e := b[..|b| - 1], b[|b| - 1];
      var t := a + [c] + b';
      assert a + [c] + b == t + [e];
      assert b == b' + [e];
      RunsSplit(a, c, b');
      assert b' != [] ==> t[|t| - 1] == b'[|b'| - 1];
      assert b' == [] ==> t[|t| - 1] == c;
      SameEnding(t, b', Runs(a), e);
    }
  }

  /** A prefix of a run of digits is a run of digits. */
  lemma DigitsPrefix(w: string, k: nat)
    requires AllDigits(w) && k <= |w|
    ensures AllDigits(w[..k])
  {
    assert forall i :: 0 <= i < k ==> w[..k][i] == w[i];
  }

  /** The numbers up to digit `x` of a run starting at `st`: those before
      the run, then the run's reading so far. */
  lemma RunsPrefix(s: string, st: nat, x: nat)
    requires st <= x < |s| && AllDigits(s[st..x + 1])
    requires st == 0 || !IsDigit(s[st - 1])
    ensures Runs(s[..x + 1]) == Runs(s[..st]) + [DecimalValue(s[st..x + 1])]
  {
    var run := s[st..x + 1];
    RunsOfDigits(run);
    if st == 0 {
      assert s[..x + 1] == run;
    } else {
      var before := s[..st - 1];
      assert s[..x + 1] == before + [s[st - 1]] + run;
      assert s[..st] == before + [s[st - 1]] + [];
      RunsSplit(before, s[st - 1], run);
      RunsSplit(before, s[st - 1], []);
    }
  }

  /** A maximal run of digits `s[st..e]` is one number: every digit of it
      counts the same number of numbers up to itself, and the number at that
      position is the run's decimal reading. */
  lemma RunNumber(s: string, st: nat, e: nat, x: nat)
    requires st <= x < e <= |s| && AllDigits(s[st..e])
    requires st == 0 || !IsDigit(s[st - 1])
    requires e == |s| || !IsDigit(s[e])
    ensures |Runs(s[..x + 1])| == |Runs(s[..st])| + 1
    ensures |Runs(s[..st])| < |Runs(s)| && Runs(s)[|Runs(s[..st])|] == DecimalValue(s[st..e])
  {
    assert s[st..x + 1] == s[st..e][..x + 1 - st];
    DigitsPrefix(s[st..e], x + 1 - st);
    RunsPrefix(s, st, x);
    RunsPrefix(s, st, e - 1);
    RunsUpTo(s, e);
  }

  /** The numbers of a line begin with those up to a separator, or up to
      its end. */
  lemma RunsUpTo(s: string, e: nat)
    requires e <= |s| && (e == |s| || !IsDigit(s[e]))
    ensures Runs(s[..e]) <= Runs(s)
  {
    if e < |s| {
      assert s == s[..e] + [s[e]] + s[e + 1..];
      RunsSplit(s[..e], s[e], s[e + 1..]);
    } else {
      assert s[..e] == s;
    }
  }
}
