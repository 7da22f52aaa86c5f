/** Day 24: the valley map, its blizzards, and where each blizzard is at a
    given minute. */
module Day24 {
  import opened Common

  /** Column and row, as signed numbers. */
  type Coords = (int, int)

  datatype Wind = North | South | West | East

  /** `Input`: the blizzards in reading order with their directions, every
      tile that is not a wall, and the largest column and row seen. */
  datatype Valley = Valley(blizzards: seq<(Coords, Wind)>, open: set<Coords>, maxX: nat, maxY: nat)

  function Max(a: nat, b: nat): nat
  {
    if a < b then b else a
  }

  /** The direction an arrow character blows, if it is one. */
  function Arrow(c: char): Option<Wind>
  {
    match c
    case '^' => Some(North)
    case 'v' => Some(South)
    case '<' => Some(West)
    case '>' => Some(East)
    case _ => None
  }

  /** The characters the map may hold; any other panics. */
  predicate Known(c: char)
  {
    c == '#' || c == '.' || Arrow(c).Some?
  }

  predicate AllKnown(lines: seq<string>)
  {
    forall y, x :: 0 <= y < |lines| && 0 <= x < |lines[y]| ==> Known(lines[y][x])
  }

  /** The blizzards of row `y`, left to right. */
  function RowArrows(line: string, y: nat): seq<(Coords, Wind)>
    decreases |line|
  {
    if line == [] then []
    else
      var x := |line| - 1;
      RowArrows(line[..x], y) + match Arrow(line[x]) { case Some(w) => [((x, y), w)] case None => [] }
  }

  /** The blizzards of the map in reading order. */
  function Arrows(lines: seq<string>): seq<(Coords, Wind)>
    decreases |lines|
  {
    if lines == [] then [] else Arrows(lines[..|lines| - 1]) + RowArrows(lines[|lines| - 1], |lines| - 1)
  }

  /** The tiles of row `y` that are not walls. */
  function RowOpen(line: string, y: nat): set<Coords>
    decreases |line|
  {
    if line == [] then {}
    else
      var x := |line| - 1;
      RowOpen(line[..x], y) + if line[x] != '#' then {(x, y)} else {}
  }

  function OpenCells(lines: seq<string>): set<Coords>
    decreases |lines|
  {
    if lines == [] then {} else OpenCells(lines[..|lines| - 1]) + RowOpen(lines[|lines| - 1], |lines| - 1)
  }

  /** The largest column of any character, or 0. */
  function Widest(lines: seq<string>): nat
    decreases |lines|
  {
    if lines == [] then 0
    else
      var last := lines[|lines| - 1];
      Max(Widest(lines[..|lines| - 1]), if |last| > 0 then |last| - 1 else 0)
  }

  /** The last row holding any character, or 0. */
  function LastRow(lines: seq<string>): (r: nat)
    ensures r <= |lines|
    decreases |lines|
  {
    if lines == [] then 0
    else if |lines[|lines| - 1]| > 0 then |lines| - 1
    else LastRow(lines[..|lines| - 1])
  }

  /** The blizzard list holds exactly the arrows of the map, each at its
      tile with its direction. */
  lemma {:induction false} RowArrowsMeaning(line: string, y: nat)
    ensures forall b :: b in RowArrows(line, y) <==>
              b.0.1 == y && 0 <= b.0.0 < |line| && Arrow(line[b.0.0]) == Some(b.1)
    decreases |line|
  {
    if line != [] {
      var x := |line| - 1;
      RowArrowsMeaning(line[..x], y);
    }
  }

  lemma {:induction false} ArrowsMeaning(lines: seq<string>)
    ensures forall b :: b in Arrows(lines) <==>
              0 <= b.0.1 < |lines| && 0 <= b.0.0 < |lines[b.0.1]| && Arrow(lines[b.0.1][b.0.0]) == Some(b.1)
    decreases |lines|
  {
    if lines != [] {
      var init := lines[..|lines| - 1];
      ArrowsMeaning(init);
      RowArrowsMeaning(lines[|lines| - 1], |lines| - 1);
      forall b
        ensures b in Arrows(lines) <==>
                0 <= b.0.1 < |lines| && 0 <= b.0.0 < |lines[b.0.1]| && Arrow(lines[b.0.1][b.0.0]) == Some(b.1)
      {
        if 0 <= b.0.1 < |init| {
          assert lines[b.0.1] == init[b.0.1];
        }
      }
    }
  }

  /** The open set holds exactly the tiles that are not walls. */
  lemma {:induction false} RowOpenMeaning(line: string, y: nat)
    ensures forall p :: p in RowOpen(line, y) <==> p.1 == y && 0 <= p.0 < |line| && line[p.0] != '#'
    decreases |line|
  {
    if line != [] {
      RowOpenMeaning(line[..|line| - 1], y);
    }
  }

  lemma {:induction false} OpenMeaning(lines: seq<string>)
    ensures forall p :: p in OpenCells(lines) <==>
              0 <= p.1 < |lines| && 0 <= p.0 < |lines[p.1]| && lines[p.1][p.0] != '#'
    decreases |lines|
  {
    if lines != [] {
      var init := lines[..|lines| - 1];
      OpenMeaning(init);
      RowOpenMeaning(lines[|lines| - 1], |lines| - 1);
      forall p
        ensures p in OpenCells(lines) <==> 0 <= p.1 < |lines| && 0 <= p.0 < |lines[p.1]| && lines[p.1][p.0] != '#'
      {
        if 0 <= p.1 < |init| {
          assert lines[p.1] == init[p.1];
        }
      }
    }
  }

  /** `max_x` is the largest column of any character: no row reaches
      past it, and it is 0 or some row ends at it. */
  lemma {:induction false} WidestMeaning(lines: seq<string>)
    ensures forall y :: 0 <= y < |lines| ==> |lines[y]| <= Widest(lines) + 1
    ensures Widest(lines) == 0 || exists y :: 0 <= y < |lines| && |lines[y]| == Widest(lines) + 1
    decreases |lines|
  {
    if lines != [] {
      var init, last := lines[..|lines| - 1], lines[|lines| - 1];
      WidestMeaning(init);
      forall y | 0 <= y < |lines|
        ensures |lines[y]| <= Widest(lines) + 1
      {
        if y < |init| {
          assert lines[y] == init[y];
        }
      }
      if Widest(lines) != 0 {
        if Widest(lines) == Widest(init) {
          var y :| 0 <= y < |init| && |init[y]| == Widest(init) + 1;
          assert lines[y] == init[y];
        } else {
          assert |lines[|lines| - 1]| == Widest(lines) + 1;
        }
      }
    }
  }

  /** `max_y` is the last row holding a character: every such row is at or
      above it, and it is 0 or its row holds one. */
  lemma {:induction false} LastRowMeaning(lines: seq<string>)
    ensures forall y :: 0 <= y < |lines| && |lines[y]| > 0 ==> y <= LastRow(lines)
    ensures LastRow(lines) == 0 || (LastRow(lines) < |lines| && |lines[LastRow(lines)]| > 0)
    decreases |lines|
  {
    if lines != [] && |lines[|lines| - 1]| == 0 {
      var init := lines[..|lines| - 1];
      LastRowMeaning(init);
      forall y | 0 <= y < |lines| && |lines[y]| > 0
        ensures y <= LastRow(lines)
      {
        assert y < |init| && lines[y] == init[y];
      }
      if LastRow(init) != 0 {
        assert lines[LastRow(init)] == init[LastRow(init)];
      }
    }
  }

  /** The inner loop of `parse_input` over one row: a character that is
      not a wall, an open tile or an arrow panics; otherwise the row's
      arrows are appended to the blizzards, its non-wall tiles added to the
      open set, and the largest column and row updated. */
  method ScanRow(line: string, y: nat, blizzards: seq<(Coords, Wind)>, open: set<Coords>, maxX: nat, maxY: nat)
    returns (r: Option<(seq<(Coords, Wind)>, set<Coords>, nat, nat)>)
    requires maxY <= y
    ensures r.None? <==> exists x :: 0 <= x < |line| && !Known(line[x])
    ensures r.Some? ==> r.value == (blizzards + RowArrows(line, y), open + RowOpen(line, y),
                                   Max(maxX, if |line| > 0 then |line| - 1 else 0),
                                   if |line| > 0 then y else maxY)
  {
    var bs, cells, mx, my := blizzards, open, maxX, maxY;
    for x := 0 to |line|
      invariant forall k :: 0 <= k < x ==> Known(line[k])
      invariant bs == blizzards + RowArrows(line[..x], y)
      invariant cells == open + RowOpen(line[..x], y)
      invariant mx == Max(maxX, if x > 0 then x - 1 else 0)
      invariant my == if x > 0 then y else maxY
    {
      assert line[..x + 1][..x] == line[..x];
      mx, my := Max(mx, x), Max(my, y);
      var c := line[x];
      if c == '#' {
      } else if c == '.' {
        cells := cells + {(x, y)};
      } else if c == '>' {
        bs := bs + [((x, y), East)];
        cells := cells + {(x, y)};
      } else if c == 'v' {
        bs := bs + [((x, y), South)];
        cells := cells + {(x, y)};
      } else if c == '^' {
        bs := bs + [((x, y), North)];
        cells := cells + {(x, y)};
      } else if c == '<' {
        bs := bs + [((x, y), West)];
        cells := cells + {(x, y)};
      } else {
        return None;
      }
    }
    assert line[..|line|] == line;
    return Some((bs, cells, mx, my));
  }

  /** The valley a map describes. */
  function Described(lines: seq<string>): Valley
  {
    Valley(Arrows(lines), OpenCells(lines), Widest(lines), LastRow(lines))
  }

  /** `parse_input`: `None` where it panics on an unknown character;
      otherwise the valley the map describes. */
  method ParseInput(input: string) returns (r: Option<Valley>)
    ensures r.None? <==> !AllKnown(Lines(input))
    ensures r.Some? ==> r.value == Described(Lines(input))
  {
    var lines := Lines(input);
    var bs: seq<(Coords, Wind)>, open: set<Coords>, maxX: nat, maxY: nat := [], {}, 0, 0;
    for y := 0 to |lines|
      invariant AllKnown(lines[..y])
      invariant bs == Arrows(lines[..y]) && open == OpenCells(lines[..y])
      invariant maxX == Widest(lines[..y]) && maxY == LastRow(lines[..y])
    {
      var row := ScanRow(lines[y], y, bs, open, maxX, maxY);
      if row.None? {
        var x :| 0 <= x < |lines[y]| && !Known(lines[y][x]);
        assert lines[y][x] == Lines(input)[y][x];
        return None;
      }
      assert lines[..y + 1][..y] == lines[..y];
      bs, open, maxX, maxY := row.value.0, row.value.1, row.value.2, row.value.3;
      ghost var seen := lines[..y + 1];
      forall i, x | 0 <= i < |seen| && 0 <= x < |seen[i]|
        ensures Known(seen[i][x])
      {
        if i < y {
          assert seen[i] == lines[..y][i];
        }
      }
    }
    assert lines[..|lines|] == lines;
    r := Some(Valley(bs, open, maxX, maxY));
    assert r.value == Described(lines);
  }

  /** The number `rem_euclid` divides by along a blizzard's axis:
      `max_y - 1` for vertical winds, `max_x - 1` for horizontal ones. */
  function Divisor(b: (Coords, Wind), maxX: nat, maxY: nat): int
  {
    if b.1 == North || b.1 == South then maxY - 1 else maxX - 1
  }

  /** The number `rem_euclid` is taken of: the blizzard's coordinate along
      its axis, less one, moved `t` tiles in its direction. */
  function Offset(b: (Coords, Wind), t: nat): int
  {
    match b.1
    case North => b.0.1 - 1 + -(t as int)
    case South => b.0.1 - 1 + t
    case West => b.0.0 - 1 + -(t as int)
    case East => b.0.0 - 1 + t
  }

  /** Where a blizzard is at minute `t`: it moves one tile a minute along
      its axis, wrapping inside the walls (`rem_euclid`, which is the
      remainder Dafny's `%` takes). A divisor of zero panics: `None`. */
  function BlizzardAt(b: (Coords, Wind), t: nat, maxX: nat, maxY: nat): (r: Option<Coords>)
    ensures r.None? <==> Divisor(b, maxX, maxY) == 0
  {
    var m := Divisor(b, maxX, maxY);
    if m == 0 then None
    else if b.1 == North || b.1 == South then Some((b.0.0, Offset(b, t) % m + 1))
    else Some((Offset(b, t) % m + 1, b.0.1))
  }

  /** A blizzard keeps its other coordinate and stays between the walls of
      its axis. */
  lemma BlizzardRange(b: (Coords, Wind), t: nat, maxX: nat, maxY: nat)
    requires Divisor(b, maxX, maxY) > 0
    ensures var p := BlizzardAt(b, t, maxX, maxY).value;
            if b.1 == North || b.1 == South then p.0 == b.0.0 && 1 <= p.1 <= maxY - 1
            else p.1 == b.0.1 && 1 <= p.0 <= maxX - 1
  {
  }

  /** At minute 0 a blizzard between the walls is where the map shows it. */
  lemma BlizzardStart(b: (Coords, Wind), maxX: nat, maxY: nat)
    requires Divisor(b, maxX, maxY) > 0
    requires if b.1 == North || b.1 == South then 1 <= b.0.1 <= maxY - 1 else 1 <= b.0.0 <= maxX - 1
    ensures BlizzardAt(b, 0, maxX, maxY) == Some(b.0)
  {
    DivUnique(Offset(b, 0), Divisor(b, maxX, maxY), 0, Offset(b, 0));
  }

  /** The period of a blizzard: the number of tiles between the walls of
      its axis (one where there are none). */
  function Period(b: (Coords, Wind), maxX: nat, maxY: nat): nat
  {
    Abs(Divisor(b, maxX, maxY))
  }

  /** The remainder depends only on the size of the divisor. */
  lemma {:induction false} ModAbs(a: int, m: int)
    requires m != 0
    ensures a % m == a % Abs(m)
  {
    var u, v := a / m, a % m;
    assert a == m * u + v && 0 <= v < Abs(m);
    if m < 0 {
      assert a == Abs(m) * (-u) + v;
      DivUnique(a, Abs(m), -u, v);
    }
  }

  /** Adding or taking one period leaves the remainder. */
  lemma {:induction false} ModPeriod(a: int, d: int)
    requires d > 0
    ensures (a + d) % d == a % d && (a - d) % d == a % d
  {
    var q, r := a / d, a % d;
    assert a == d * q + r && 0 <= r < d;
    DivUnique(a + d, d, q + 1, r);
    DivUnique(a - d, d, q - 1, r);
  }

  /** Blizzards are periodic: after one period every blizzard is back. */
  lemma BlizzardPeriodic(b: (Coords, Wind), t: nat, maxX: nat, maxY: nat)
    ensures BlizzardAt(b, t + Period(b, maxX, maxY), maxX, maxY) == BlizzardAt(b, t, maxX, maxY)
  {
    var m := Divisor(b, maxX, maxY);
    if m != 0 {
      var d := Abs(m);
      var a, a' := Offset(b, t), Offset(b, t + d);
      assert a' == a + d || a' == a - d;
      ModPeriod(a, d);
      ModAbs(a, m);
      ModAbs(a', m);
    }
  }

  /** One more or one less wraps the remainder around. */
  lemma {:induction false} ModStep(a: int, m: int)
    requires m > 0
    ensures (a + 1) % m == if a % m + 1 < m then a % m + 1 else 0
    ensures (a - 1) % m == if a % m >= 1 then a % m - 1 else m - 1
  {
    var q, r := a / m, a % m;
    assert a == m * q + r;
    if r + 1 < m {
      DivUnique(a + 1, m, q, r + 1);
    } else {
      DivUnique(a + 1, m, q + 1, 0);
    }
    if r >= 1 {
      DivUnique(a - 1, m, q, r - 1);
    } else {
      DivUnique(a - 1, m, q - 1, m - 1);
    }
  }

  /** Each minute a blizzard moves one tile in its direction, and one that
      would reach the wall reappears at the other side. */
  lemma BlizzardMoves(b: (Coords, Wind), t: nat, maxX: nat, maxY: nat)
    requires Divisor(b, maxX, maxY) > 0
    ensures var (x, y) := BlizzardAt(b, t, maxX, maxY).value;
            BlizzardAt(b, t + 1, maxX, maxY).value ==
              match b.1
              case North => (x, if y == 1 then maxY - 1 else y - 1)
              case South => (x, if y == maxY - 1 then 1 else y + 1)
              case West => (if x == 1 then maxX - 1 else x - 1, y)
              case East => (if x == maxX - 1 then 1 else x + 1, y)
  {
    ModStep(Offset(b, t), Divisor(b, maxX, maxY));
  }

  /** Some blizzard is on `p` at minute `t`. */
  ghost predicate Stormy(v: Valley, t: nat, p: Coords)
  {
    exists i :: 0 <= i < |v.blizzards| && BlizzardAt(v.blizzards[i], t, v.maxX, v.maxY) == Some(p)
  }

  /** `get_blizzard_tiles`: the set of tiles some blizzard is on at minute
      `t`; it panics (`None`) when some blizzard's axis has no room. */
  method BlizzardTiles(v: Valley, t: nat) returns (r: Option<set<Coords>>)
    ensures r.None? <==> exists i :: 0 <= i < |v.blizzards| && Divisor(v.blizzards[i], v.maxX, v.maxY) == 0
    ensures r.Some? ==> forall p :: p in r.value <==> Stormy(v, t, p)
  {
    var tiles: set<Coords> := {};
    for i := 0 to |v.blizzards|
      invariant forall j :: 0 <= j < i ==> Divisor(v.blizzards[j], v.maxX, v.maxY) != 0
      invariant forall p :: p in tiles <==>
                  exists j :: 0 <= j < i && BlizzardAt(v.blizzards[j], t, v.maxX, v.maxY) == Some(p)
    {
      var p := BlizzardAt(v.blizzards[i], t, v.maxX, v.maxY);
      if p.None? {
        return None;
      }
      tiles := tiles + {p.value};
    }
    return Some(tiles);
  }
}
