/** Day 13, reading the patterns and scoring them: the first vertical line
    of reflection counts its column, else the first horizontal one counts a
    hundred times its row. */
module Day13Score {
  import opened Common
  import opened Day13
  import opened Grids

  const VERTICAL_MULTIPLIER: nat := 1
  const HORIZONTAL_MULTIPLIER: nat := 100

  /** The first line from `m` on, before `end`, that reflects. */
  function FirstLine(g: Grid, vertical: bool, smudge: bool, m: nat, end: nat): (r: Option<nat>)
    ensures r.Some? ==> m <= r.value < end && Reflects(g, vertical, r.value, smudge)
    ensures r.Some? ==> forall j :: m <= j < r.value ==> !Reflects(g, vertical, j, smudge)
    ensures r.None? ==> forall j :: m <= j < end ==> !Reflects(g, vertical, j, smudge)
    decreases end - m
  {
    if m >= end then None
    else if Reflects(g, vertical, m, smudge) then Some(m)
    else FirstLine(g, vertical, smudge, m + 1, end)
  }

  /** What a pattern adds to the total. */
  function Score(g: Grid, smudge: bool): (r: nat)
    requires Rect(g)
    ensures r == 0 <==> (forall j :: 0 <= j < |g[0]| - 1 ==> !Reflects(g, true, j, smudge))
                        && (forall j :: 0 <= j < |g| - 1 ==> !Reflects(g, false, j, smudge))
  {
    match FirstLine(g, true, smudge, 0, |g[0]| - 1)
    case Some(x) => (x + 1) * VERTICAL_MULTIPLIER
    case None =>
      match FirstLine(g, false, smudge, 0, |g| - 1)
      case Some(y) => (y + 1) * HORIZONTAL_MULTIPLIER
      case None => 0
  }

  /** The body of `process_grid`'s loop for one pattern: the two searches,
      each stopping at the first line found. */
  method GridScore(g: Grid, smudge: bool) returns (score: nat)
    requires Rect(g)
    ensures score == Score(g, smudge)
  {
    for x := 0 to |g[0]| - 1
      invariant FirstLine(g, true, smudge, x, |g[0]| - 1) == FirstLine(g, true, smudge, 0, |g[0]| - 1)
    {
      var ok := CheckMirror(g, x, true, smudge);
      if ok {
        return (x + 1) * VERTICAL_MULTIPLIER;
      }
    }
    for y := 0 to |g| - 1
      invariant FirstLine(g, false, smudge, y, |g| - 1) == FirstLine(g, false, smudge, 0, |g| - 1)
    {
      var ok := CheckMirror(g, y, false, smudge);
      if ok {
        return (y + 1) * HORIZONTAL_MULTIPLIER;
      }
    }
    return 0;
  }

  /** The symbols of a text, `None` at the first character that is not a
      symbol. */
  function Symbols(s: string): (r: Option<seq<Symbol>>)
    ensures r.Some? ==> |r.value| == |s|
  {
    if s == [] then Some([])
    else
      var head, rest := FromChar(s[0]), Symbols(s[1..]);
      if head.Some? && rest.Some? then Some([head.value] + rest.value) else None
  }

  /** One pattern: every symbol of every line in a row, cut into rows as
      wide as the last line. A last line that is empty, or symbols that do
      not fill the rows exactly, are a panic, `None`. */
  function ParseGrid(lines: seq<string>): (r: Option<Grid>)
    ensures r.Some? ==> Rect(r.value)
  {
    var width := if lines == [] then 0 else |lines[|lines| - 1]|;
    match Symbols(Flatten(lines))
    case None => None
    case Some(data) =>
      if width == 0 || |data| == 0 || |data| % width != 0 then None
      else
        ChunkRect(data, width);
        Some(Chunk(data, width))
  }

  /** The lines a pattern is written as. */
  function GridText(g: Grid): (ls: seq<string>)
    ensures |ls| == |g| && forall r :: 0 <= r < |g| ==> |ls[r]| == |g[r]|
  {
    if g == [] then [] else [RowText(g[0])] + GridText(g[1..])
  }

  function RowText(row: seq<Symbol>): (s: string)
    ensures |s| == |row|
  {
    if row == [] then [] else [ToChar(row[0])] + RowText(row[1..])
  }

  lemma {:induction false} SymbolsAppend(a: string, b: string)
    ensures Symbols(a + b)
      == if Symbols(a).Some? && Symbols(b).Some? then Some(Symbols(a).value + Symbols(b).value) else None
    decreases |a|
  {
    if a == [] {
      assert a + b == b;
      if Symbols(b).Some? {
        assert [] + Symbols(b).value == Symbols(b).value;
      }
    } else {
      SymbolsAppend(a[1..], b);
      assert (a + b)[1..] == a[1..] + b;
      assert (a + b)[0] == a[0];
      var head := FromChar(a[0]);
      if head.Some? && Symbols(a[1..]).Some? && Symbols(b).Some? {
        var x, xs, y := head.value, Symbols(a[1..]).value, Symbols(b).value;
        assert [x] + (xs + y) == ([x] + xs) + y;
      }
    }
  }

  lemma {:induction false} RowRoundTrip(row: seq<Symbol>)
    ensures Symbols(RowText(row)) == Some(row)
    decreases |row|
  {
    if row != [] {
      RowRoundTrip(row[1..]);
      CharRoundTrip(row[0]);
      SymbolsAppend([ToChar(row[0])], RowText(row[1..]));
      assert [ToChar(row[0])][1..] == [];
      assert [row[0]] + [] == [row[0]];
      assert Symbols([ToChar(row[0])]) == Some([row[0]]);
      assert [row[0]] + row[1..] == row;
    }
  }

  lemma {:induction false} SymbolsFlatten(g: Grid)
    ensures Symbols(Flatten(GridText(g))) == Some(Flatten(g))
    decreases |g|
  {
    if g != [] {
      SymbolsFlatten(g[1..]);
      RowRoundTrip(g[0]);
      assert GridText(g)[0] == RowText(g[0]) && GridText(g)[1..] == GridText(g[1..]);
      SymbolsAppend(RowText(g[0]), Flatten(GridText(g[1..])));
    }
  }

  /** Reading the lines a pattern is written as gives the pattern back. */
  lemma {:induction false} GridRoundTrip(g: Grid)
    requires Rect(g)
    ensures ParseGrid(GridText(g)) == Some(g)
  {
    var w := |g[0]|;
    SymbolsFlatten(g);
    FlattenLength(g, w);
    ChunkFlatten(g, w);
    DivOfMultiple(|g|, w);
    assert |GridText(g)[|g| - 1]| == w;
  }

  /** `parse_input`: patterns are separated by an empty line. */
  function Patterns(input: string): Option<seq<Grid>>
  {
    AllGrids(Split(input, "\n\n"))
  }

  function AllGrids(texts: seq<string>): (r: Option<seq<Grid>>)
    ensures r.Some? ==> |r.value| == |texts|
    ensures r.Some? ==> forall k :: 0 <= k < |texts| ==> ParseGrid(Lines(texts[k])) == Some(r.value[k])
  {
    if texts == [] then Some([])
    else match (ParseGrid(Lines(texts[0])), AllGrids(texts[1..]))
      case (Some(g), Some(gs)) => Some([g] + gs)
      case _ => None
  }

  /** The scores of the patterns, added up. */
  function TotalScore(grids: seq<Grid>, smudge: bool): nat
    requires forall k :: 0 <= k < |grids| ==> Rect(grids[k])
  {
    if grids == [] then 0 else TotalScore(grids[..|grids| - 1], smudge) + Score(grids[|grids| - 1], smudge)
  }

  method SumScores(grids: seq<Grid>, smudge: bool) returns (total: nat)
    requires forall k :: 0 <= k < |grids| ==> Rect(grids[k])
    ensures total == TotalScore(grids, smudge)
  {
    total := 0;
    for k := 0 to |grids|
      invariant total == TotalScore(grids[..k], smudge)
    {
      var score := GridScore(grids[k], smudge);
      assert grids[..k + 1][..k] == grids[..k];
      total := total + score;
    }
    assert grids[..|grids|] == grids;
  }

  /** `process_grid`: the input must parse, or the solution panics. */
  method ProcessGrid(input: string, allowSmudge: bool) returns (total: nat)
    requires Patterns(input).Some?
    ensures forall k :: 0 <= k < |Patterns(input).value| ==> Rect(Patterns(input).value[k])
    ensures total == TotalScore(Patterns(input).value, allowSmudge)
  {
    var grids := Patterns(input).value;
    total := SumScores(grids, allowSmudge);
  }

  method PartOne(input: string) returns (total: nat)
    requires Patterns(input).Some?
    ensures forall k :: 0 <= k < |Patterns(input).value| ==> Rect(Patterns(input).value[k])
    ensures total == TotalScore(Patterns(input).value, false)
  {
    total := ProcessGrid(input, false);
  }

  method PartTwo(input: string) returns (total: nat)
    requires Patterns(input).Some?
    ensures forall k :: 0 <= k < |Patterns(input).value| ==> Rect(Patterns(input).value[k])
    ensures total == TotalScore(Patterns(input).value, true)
  {
    total := ProcessGrid(input, true);
  }
}
