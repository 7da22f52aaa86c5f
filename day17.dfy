/** Day 17: the city map of heat-loss digits, the four directions, and the
    two rules that say which way a crucible may go next. */
module Day17 {
  import opened Common
  import opened Grids

  /** The heat loss of every block, row by row. */
  type City = seq<seq<nat>>

  datatype Direction = Up | Down | Left | Right

  /** `delta`: the (row, column) step of a direction. */
  function Delta(d: Direction): (r: (int, int))
    ensures Abs(r.0) + Abs(r.1) == 1
  {
    match d
    case Up => (-1, 0)
    case Down => (1, 0)
    case Left => (0, -1)
    case Right => (0, 1)
  }

  /** `turn_back`: the opposite direction. */
  function TurnBack(d: Direction): (r: Direction)
    ensures r != d
    ensures Delta(r).0 == -Delta(d).0 && Delta(r).1 == -Delta(d).1
  {
    match d
    case Up => Down
    case Down => Up
    case Left => Right
    case Right => Left
  }

  /** Turning back twice faces the way one started. */
  lemma TurnBackTwice(d: Direction)
    ensures TurnBack(TurnBack(d)) == d
  {
    match d
    case Up =>
    case Down =>
    case Left =>
    case Right =>
  }

  /** The rule of `part_one`: never reverse, and never a fourth move in the
      same direction. */
  function CrucibleRule(prev: Direction, next: Direction, run: nat): bool
  {
    if next == TurnBack(prev) then false
    else if run == 3 && next == prev then false
    else true
  }

  /** The rule of `part_two`: never reverse, never an eleventh move in the
      same direction, and no turn before four moves in a line. */
  function UltraRule(prev: Direction, next: Direction, run: nat): bool
  {
    if next == TurnBack(prev) then false
    else if run == 10 && next == prev then false
    else if run < 4 && next != prev then false
    else true
  }

  /** Part one's rule allows exactly the moves that neither reverse nor
      make the run longer than three (for runs of at most three). */
  lemma CrucibleAllows(prev: Direction, next: Direction, run: nat)
    requires run <= 3
    ensures CrucibleRule(prev, next, run) <==> next != TurnBack(prev) && (next == prev ==> run + 1 <= 3)
  {
  }

  /** Part two's rule allows exactly the moves that neither reverse, nor
      make the run longer than ten, nor turn after fewer than four moves
      (for runs of at most ten). */
  lemma UltraAllows(prev: Direction, next: Direction, run: nat)
    requires run <= 10
    ensures UltraRule(prev, next, run) <==>
            next != TurnBack(prev) && (next == prev ==> run + 1 <= 10) && (next != prev ==> run >= 4)
  {
  }

  /** The start faces right with no moves made, so under part two's rule
      the first move can only go right. */
  lemma UltraStartsRight(next: Direction)
    ensures UltraRule(Right, next, 0) <==> next == Right
  {
  }

  /** The digits of a line, `to_digit(10)`; any other character panics. */
  function Digits(s: string): (r: Option<seq<nat>>)
    ensures r.Some? ==> |r.value| == |s| && forall i :: 0 <= i < |s| ==> IsDigit(s[i]) && r.value[i] == DigitValue(s[i])
    ensures r.None? ==> exists i :: 0 <= i < |s| && !IsDigit(s[i])
  {
    if s == [] then Some([])
    else
      var rest := Digits(s[1..]);
      if !IsDigit(s[0]) then None
      else if rest.None? then
        var i :| 0 <= i < |s[1..]| && !IsDigit(s[1..][i]);
        assert !IsDigit(s[i + 1]);
        None
      else Some([DigitValue(s[0])] + rest.value)
  }

  /** Digits below ten in every cell. */
  predicate DigitCells(g: City)
  {
    forall i, j :: 0 <= i < |g| && 0 <= j < |g[i]| ==> g[i][j] < 10
  }

  /** `parse_input`: the digits of every line, cut into rows as wide as the
      first line. No line at all, an empty first line, a character that is
      not a digit, or digits that do not fill whole rows, are a panic (an
      empty grid panics later, at `rows() - 1`), `None` here. */
  function Parse(input: string): (r: Option<City>)
    ensures r.Some? ==> Rect(r.value) && DigitCells(r.value)
  {
    var lines := Lines(input);
    if lines == [] then None
    else
      var cols := |lines[0]|;
      match Digits(Flatten(lines))
      case None => None
      case Some(data) =>
        if cols == 0 || |data| == 0 || |data| % cols != 0 then None
        else
          ChunkRect(data, cols);
          ChunkValues(data, cols);
          Some(Chunk(data, cols))
  }

  /** Every cell of the rows comes from the data. */
  lemma {:induction false} ChunkValues(data: seq<nat>, w: nat)
    requires w > 0 && forall k :: 0 <= k < |data| ==> data[k] < 10
    ensures DigitCells(Chunk(data, w))
    decreases |data|
  {
    if |data| > w {
      ChunkValues(data[w..], w);
      var c := Chunk(data, w);
      assert c[1..] == Chunk(data[w..], w);
      forall i, j | 0 <= i < |c| && 0 <= j < |c[i]|
        ensures c[i][j] < 10
      {
        if i > 0 {
          assert c[i] == Chunk(data[w..], w)[i - 1];
        }
      }
    }
  }

  /** The character of a digit below ten. */
  function DigitChar(n: nat): (c: char)
    requires n < 10
    ensures IsDigit(c) && DigitValue(c) == n
  {
    ('0' as int + n) as char
  }

  function RowText(row: seq<nat>): (s: string)
    requires forall j :: 0 <= j < |row| ==> row[j] < 10
    ensures |s| == |row| && forall j :: 0 <= j < |row| ==> s[j] == DigitChar(row[j])
  {
    if row == [] then [] else [DigitChar(row[0])] + RowText(row[1..])
  }

  function RowTexts(g: City): (ls: seq<string>)
    requires DigitCells(g)
    ensures |ls| == |g| && forall i :: 0 <= i < |g| ==> ls[i] == RowText(g[i])
  {
    if g == [] then [] else [RowText(g[0])] + RowTexts(g[1..])
  }

  /** The map as the puzzle input writes it: a line per row. */
  function Text(g: City): string
    requires Rect(g) && DigitCells(g)
  {
    Join(RowTexts(g), "\n") + "\n"
  }

  /** A line of digits reads as their values. */
  lemma {:induction false} DigitsAll(s: string, v: seq<nat>)
    requires |v| == |s| && forall j :: 0 <= j < |s| ==> IsDigit(s[j]) && DigitValue(s[j]) == v[j]
    ensures Digits(s) == Some(v)
  {
    var r := Digits(s);
    assert r.Some?;
    assert r.value == v;
  }

  lemma {:induction false} DigitsAppend(a: string, b: string)
    requires Digits(a).Some? && Digits(b).Some?
    ensures Digits(a + b) == Some(Digits(a).value + Digits(b).value)
  {
    var x, y := Digits(a).value, Digits(b).value;
    forall j | 0 <= j < |a + b|
      ensures IsDigit((a + b)[j]) && DigitValue((a + b)[j]) == (x + y)[j]
    {
      if j < |a| {
        assert (a + b)[j] == a[j];
      } else {
        assert (a + b)[j] == b[j - |a|];
      }
    }
    DigitsAll(a + b, x + y);
  }

  lemma {:induction false} DigitsFlatten(g: City)
    requires DigitCells(g)
    ensures Digits(Flatten(RowTexts(g))) == Some(Flatten(g))
    decreases |g|
  {
    if g != [] {
      DigitsFlatten(g[1..]);
      DigitsAll(RowText(g[0]), g[0]);
      assert RowTexts(g)[1..] == RowTexts(g[1..]);
      DigitsAppend(RowText(g[0]), Flatten(RowTexts(g[1..])));
    }
  }

  /** Reading a written map gives it back. */
  lemma {:induction false} ParseRoundTrip(g: City)
    requires Rect(g) && DigitCells(g)
    ensures Parse(Text(g)) == Some(g)
  {
    var ls := RowTexts(g);
    forall k | 0 <= k < |ls|
      ensures Free(ls[k], "\n")
    {
      assert '\n' !in ls[k];
      FreeChar(ls[k], '\n');
    }
    LinesRoundTrip(ls);
    var w := |g[0]|;
    DigitsFlatten(g);
    FlattenLength(g, w);
    ChunkFlatten(g, w);
    DivOfMultiple(|g|, w);
  }
}
