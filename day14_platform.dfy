/** Day 14, the whole platform: it is turned so the tilt runs along its
    rows, every row is tilted, and it is turned back. The load on the north
    beams weighs each rounded rock by its distance from the south edge. */
module Day14Platform {
  import opened Common
  import opened Grids
  import opened Day14

  /** The platform, row by row from north to south. */
  type Platform = seq<seq<Symbol>>

  datatype Direction = North | East | South | West

  /** The turn before the rows are tilted: it brings the side tilted
      towards to the east. */
  function Turn<T>(g: seq<seq<T>>, d: Direction): (t: seq<seq<T>>)
    requires Rect(g)
    ensures Rect(t)
  {
    match d
    case North => RotateRight(g)
    case East => g
    case South => RotateLeft(g)
    case West => RotateHalf(g)
  }

  /** The turn after the rows are tilted. */
  function TurnBack<T>(g: seq<seq<T>>, d: Direction): (t: seq<seq<T>>)
    requires Rect(g)
    ensures Rect(t)
  {
    match d
    case North => RotateLeft(g)
    case East => g
    case South => RotateRight(g)
    case West => RotateHalf(g)
  }

  /** Turning back undoes the turn. */
  lemma {:induction false} TurnBackUndoes(g: Platform, d: Direction)
    requires Rect(g)
    ensures TurnBack(Turn(g, d), d) == g
  {
    match d
    case North => LeftUndoesRight(g);
    case East =>
    case South => RightUndoesLeft(g);
    case West => HalfUndoesHalf(g);
  }

  /** Turning undoes the turn back. */
  lemma {:induction false} TurnUndoesBack(g: Platform, d: Direction)
    requires Rect(g)
    ensures Turn(TurnBack(g, d), d) == g
  {
    match d
    case North => RightUndoesLeft(g);
    case East =>
    case South => LeftUndoesRight(g);
    case West => HalfUndoesHalf(g);
  }

  /** Every row tilted towards its end. */
  function TiltRows(g: Platform): (t: Platform)
    ensures |t| == |g| && forall r :: 0 <= r < |g| ==> t[r] == TiltRow(g[r]) && |t[r]| == |g[r]|
  {
    seq(|g|, r requires 0 <= r < |g| => TiltRow(g[r]))
  }

  /** The platform tilted in one direction. */
  function Tilt(g: Platform, d: Direction): (t: Platform)
    requires Rect(g)
  {
    TurnBack(TiltRows(Turn(g, d)), d)
  }

  /** Where the cube-shaped rocks are. */
  function CubeLayout(g: Platform): seq<seq<bool>>
  {
    MapCells(g, (s: Symbol) => s == Cube)
  }

  lemma {:induction false} TurnBackLayout(g: Platform, d: Direction)
    requires Rect(g)
    ensures CubeLayout(TurnBack(g, d)) == TurnBack(CubeLayout(g), d)
  {
    var f := (s: Symbol) => s == Cube;
    match d
    case North => MapLeft(g, f);
    case East =>
    case South => MapRight(g, f);
    case West => MapHalf(g, f);
  }

  /** A tilt keeps the platform's shape, and every cube-shaped rock where
      it is. */
  lemma {:induction false} TiltKeepsCubes(g: Platform, d: Direction)
    requires Rect(g)
    ensures Rect(Tilt(g, d)) && |Tilt(g, d)| == |g| && |Tilt(g, d)[0]| == |g[0]|
    ensures CubeLayout(Tilt(g, d)) == CubeLayout(g)
  {
    var turned := Turn(g, d);
    var tilted := TiltRows(turned);
    forall r | 0 <= r < |turned|
      ensures CubeLayout(tilted)[r] == CubeLayout(turned)[r]
    {
      CubesStay(turned[r]);
    }
    assert CubeLayout(tilted) == CubeLayout(turned);
    TurnBackLayout(tilted, d);
    TurnBackLayout(turned, d);
    TurnBackUndoes(g, d);
  }

  lemma {:induction false} TiltRowsTwice(g: Platform)
    ensures TiltRows(TiltRows(g)) == TiltRows(g)
  {
    forall r | 0 <= r < |g|
      ensures TiltRows(TiltRows(g))[r] == TiltRows(g)[r]
    {
      TiltTwice(g[r]);
    }
  }

  /** Tilting a tilted platform the same way changes nothing. */
  lemma {:induction false} TiltTwiceSame(g: Platform, d: Direction)
    requires Rect(g)
    ensures Rect(Tilt(g, d)) && Tilt(Tilt(g, d), d) == Tilt(g, d)
  {
    var tilted := TiltRows(Turn(g, d));
    assert Rect(tilted);
    TurnUndoesBack(tilted, d);
    TiltRowsTwice(Turn(g, d));
  }

  /** The rounded rocks in a row. */
  function Rounds(row: seq<Symbol>): nat
  {
    multiset(row)[Round]
  }

  /** The load of the first `k` rows: a rounded rock in row `i` weighs
      `rows - i`. */
  function Load(g: Platform, k: nat): nat
    requires k <= |g|
  {
    if k == 0 then 0 else Load(g, k - 1) + (|g| - (k - 1)) * Rounds(g[k - 1])
  }

  /** `get_weight`: the load on the north support beams. */
  function Weight(g: Platform): nat
  {
    Load(g, |g|)
  }

  lemma {:induction false} LoadZero(g: Platform, k: nat)
    requires k <= |g|
    ensures Load(g, k) == 0 <==> forall r :: 0 <= r < k ==> Round !in g[r]
  {
    if k > 0 {
      LoadZero(g, k - 1);
      var w: int := |g| - (k - 1);
      assert w >= 1;
      assert Rounds(g[k - 1]) == 0 <==> Round !in g[k - 1];
      if Rounds(g[k - 1]) > 0 {
        assert w * Rounds(g[k - 1]) >= Rounds(g[k - 1]);
      }
    }
  }

  /** The load is zero exactly when no rounded rock is left. */
  lemma {:induction false} WeightZero(g: Platform)
    ensures Weight(g) == 0 <==> forall r :: 0 <= r < |g| ==> Round !in g[r]
  {
    LoadZero(g, |g|);
  }

  lemma {:induction false} LoadSameRounds(a: Platform, b: Platform, k: nat)
    requires |a| == |b| && k <= |a|
    requires forall r :: 0 <= r < |a| ==> Rounds(a[r]) == Rounds(b[r])
    ensures Load(a, k) == Load(b, k)
  {
    if k > 0 {
      LoadSameRounds(a, b, k - 1);
    }
  }

  /** An east tilt moves rocks only along their rows, so the north load
      stays as it was. */
  lemma {:induction false} EastKeepsWeight(g: Platform)
    requires Rect(g)
    ensures Weight(Tilt(g, East)) == Weight(g)
  {
    var t := Tilt(g, East);
    forall r | 0 <= r < |g|
      ensures Rounds(t[r]) == Rounds(g[r])
    {
      TiltKeepsCounts(g[r]);
    }
    LoadSameRounds(t, g, |g|);
  }

  /** `tilt_platform`: the platform is turned, each row is tilted and pushed
      onto a new platform, and that is turned back. */
  method TiltPlatform(grid: Platform, direction: Direction) returns (tilted: Platform)
    requires Rect(grid)
    ensures tilted == Tilt(grid, direction)
  {
    var turned: Platform;
    match direction {
      case North => turned := RotateRight(grid);
      case East => turned := grid;
      case South => turned := RotateLeft(grid);
      case West => turned := RotateHalf(grid);
    }
    var rows: Platform := [];
    for i := 0 to |turned|
      invariant rows == TiltRows(turned)[..i]
    {
      rows := rows + [TiltRow(turned[i])];
    }
    assert rows == TiltRows(turned);
    match direction {
      case North => tilted := RotateLeft(rows);
      case East => tilted := rows;
      case South => tilted := RotateRight(rows);
      case West => tilted := RotateHalf(rows);
    }
  }

  /** The symbols of a text, `None` at the first character that is not a
      symbol. */
  function Symbols(s: string): (r: Option<seq<Symbol>>)
    ensures r.Some? ==> |r.value| == |s|
  {
    if s == [] then Some([])
    else
      var head, rest := FromChar(s[0]), Symbols(s[1..]);
      if head.Some? && rest.Some? then Some([head.value] + rest.value) else None
  }

  /** `parse_input`: every symbol of every line, cut into rows as wide as
      the first line. No line at all, an empty first line, a character that
      is not a symbol, or symbols that do not fill whole rows, are a panic,
      `None`. */
  function Parse(input: string): (r: Option<Platform>)
    ensures r.Some? ==> Rect(r.value)
  {
    var lines := Lines(input);
    if lines == [] then None
    else
      var cols := |lines[0]|;
      match Symbols(Flatten(lines))
      case None => None
      case Some(data) =>
        if cols == 0 || |data| == 0 || |data| % cols != 0 then None
        else
          ChunkRect(data, cols);
          Some(Chunk(data, cols))
  }

  function RowText(row: seq<Symbol>): (s: string)
    ensures |s| == |row| && forall i :: 0 <= i < |row| ==> s[i] == ToChar(row[i])
  {
    if row == [] then [] else [ToChar(row[0])] + RowText(row[1..])
  }

  function RowTexts(g: Platform): (ls: seq<string>)
    ensures |ls| == |g| && forall r :: 0 <= r < |g| ==> ls[r] == RowText(g[r])
  {
    if g == [] then [] else [RowText(g[0])] + RowTexts(g[1..])
  }

  /** The platform as the puzzle input writes it: a line per row. */
  function Text(g: Platform): string
    requires Rect(g)
  {
    Join(RowTexts(g), "\n") + "\n"
  }

  lemma {:induction false} SymbolsAppend(a: string, b: string)
    ensures Symbols(a + b)
      == if Symbols(a).Some? && Symbols(b).Some? then Some(Symbols(a).value + Symbols(b).value) else None
    decreases |a|
  {
    if a == [] {
      assert a + b == b;
      if Symbols(b).Some? {
        assert [] + Symbols(b).value == Symbols(b).value;
      }
    } else {
      SymbolsAppend(a[1..], b);
      assert (a + b)[1..] == a[1..] + b;
      assert (a + b)[0] == a[0];
      var head := FromChar(a[0]);
      if head.Some? && Symbols(a[1..]).Some? && Symbols(b).Some? {
        var x, xs, y := head.value, Symbols(a[1..]).value, Symbols(b).value;
        assert [x] + (xs + y) == ([x] + xs) + y;
      }
    }
  }

  lemma {:induction false} RowRoundTrip(row: seq<Symbol>)
    ensures Symbols(RowText(row)) == Some(row)
    decreases |row|
  {
    if row != [] {
      RowRoundTrip(row[1..]);
      CharRoundTrip(row[0]);
      SymbolsAppend([ToChar(row[0])], RowText(row[1..]));
      assert [ToChar(row[0])][1..] == [];
      assert [row[0]] + [] == [row[0]];
      assert Symbols([ToChar(row[0])]) == Some([row[0]]);
      assert RowText(row) == [ToChar(row[0])] + RowText(row[1..]);
      assert [row[0]] + row[1..] == row;
    }
  }

  lemma {:induction false} SymbolsFlatten(g: Platform)
    ensures Symbols(Flatten(RowTexts(g))) == Some(Flatten(g))
    decreases |g|
  {
    if g != [] {
      SymbolsFlatten(g[1..]);
      RowRoundTrip(g[0]);
      assert RowTexts(g)[1..] == RowTexts(g[1..]);
      SymbolsAppend(RowText(g[0]), Flatten(RowTexts(g[1..])));
    }
  }

  /** Reading a written platform gives it back. */
  lemma {:induction false} ParseRoundTrip(g: Platform)
    requires Rect(g)
    ensures Parse(Text(g)) == Some(g)
  {
    var ls := RowTexts(g);
    forall k | 0 <= k < |ls|
      ensures Free(ls[k], "\n")
    {
      assert '\n' !in ls[k];
      FreeChar(ls[k], '\n');
    }
    LinesRoundTrip(ls);
    var w := |g[0]|;
    SymbolsFlatten(g);
    FlattenLength(g, w);
    ChunkFlatten(g, w);
    DivOfMultiple(|g|, w);
  }

  /** `part_one`: the load after a tilt to the north; the input must parse,
      or the solution panics. */
  method PartOne(input: string) returns (weight: nat)
    requires Parse(input).Some?
    ensures weight == Weight(Tilt(Parse(input).value, North))
  {
    var grid := Parse(input).value;
    grid := TiltPlatform(grid, North);
    weight := Weight(grid);
  }
}
