/** Day 23: elves spreading out on an unbounded grid. Each round every elf
    with a neighbour proposes a step in the first free direction of the
    current order; a step proposed by one elf alone is taken. */
module Day23 {
  import opened Common

  /** A tile, x to the right and y downward. */
  type Tile = (int, int)

  datatype Direction = North | South | West | East

  /** The eight surrounding tiles in the source's order: N, NE, E, SE, S,
      SW, W, NW, with y growing downward. */
  function Around(e: Tile): (n: seq<Tile>)
    ensures |n| == 8
    ensures forall i :: 0 <= i < 8 ==> n[i] != e && Abs(n[i].0 - e.0) <= 1 && Abs(n[i].1 - e.1) <= 1
  {
    [(e.0, e.1 - 1), (e.0 + 1, e.1 - 1), (e.0 + 1, e.1), (e.0 + 1, e.1 + 1),
     (e.0, e.1 + 1), (e.0 - 1, e.1 + 1), (e.0 - 1, e.1), (e.0 - 1, e.1 - 1)]
  }

  /** The list holds every tile of the 3x3 block but the elf's own. */
  lemma {:induction false} AroundComplete(e: Tile, t: Tile)
    requires t != e && Abs(t.0 - e.0) <= 1 && Abs(t.1 - e.1) <= 1
    ensures t in Around(e)
  {
    var n := Around(e);
    if t.1 == e.1 - 1 {
      assert t == n[7] || t == n[0] || t == n[1];
    } else if t.1 == e.1 {
      assert t == n[2] || t == n[6];
    } else {
      assert t == n[3] || t == n[4] || t == n[5];
    }
  }

  /** The elf has at least one other elf next to it. */
  predicate Active(state: set<Tile>, e: Tile)
  {
    exists i :: 0 <= i < 8 && Around(e)[i] in state
  }

  /** The three neighbourhood slots a direction looks at, its middle slot
      being the tile it steps to. */
  function Looks(d: Direction): (s: (nat, nat, nat))
    ensures s.0 < 8 && s.1 < 8 && s.2 < 8
  {
    match d
    case North => (7, 0, 1)
    case East => (1, 2, 3)
    case South => (3, 4, 5)
    case West => (5, 6, 7)
  }

  predicate Blocked(state: set<Tile>, e: Tile, d: Direction)
  {
    var s := Looks(d);
    Around(e)[s.0] in state || Around(e)[s.1] in state || Around(e)[s.2] in state
  }

  /** The tile one step from `e` towards `d`. */
  function Target(e: Tile, d: Direction): (t: Tile)
    ensures t == Around(e)[Looks(d).1]
  {
    match d
    case North => (e.0, e.1 - 1)
    case East => (e.0 + 1, e.1)
    case South => (e.0, e.1 + 1)
    case West => (e.0 - 1, e.1)
  }

  /** The step towards the first direction of `dirs` whose three tiles are
      all empty, if there is one. */
  function FirstFree(state: set<Tile>, e: Tile, dirs: seq<Direction>): (r: Option<Tile>)
    ensures r.Some? ==> exists k :: 0 <= k < |dirs| && !Blocked(state, e, dirs[k]) && r.value == Target(e, dirs[k]) &&
                                   forall j :: 0 <= j < k ==> Blocked(state, e, dirs[j])
    ensures r.None? ==> forall k :: 0 <= k < |dirs| ==> Blocked(state, e, dirs[k])
    decreases |dirs|
  {
    if dirs == [] then None
    else if !Blocked(state, e, dirs[0]) then Some(Target(e, dirs[0]))
    else
      var r := FirstFree(state, e, dirs[1..]);
      assert forall k :: 0 < k < |dirs| ==> dirs[1..][k - 1] == dirs[k];
      r
  }

  /** What elf `e` proposes in a round: nothing when it has no neighbour,
      else the first free direction's step. A proposed tile is empty and
      next to the elf. */
  function Propose(state: set<Tile>, dirs: seq<Direction>, e: Tile): (r: Option<Tile>)
    ensures !Active(state, e) ==> r.None?
    ensures r.Some? ==> r.value !in state && Abs(r.value.0 - e.0) + Abs(r.value.1 - e.1) == 1
  {
    if !Active(state, e) then None else FirstFree(state, e, dirs)
  }

  /** Elf `e` is the only one proposing its tile: it moves. */
  ghost predicate Unique(state: set<Tile>, dirs: seq<Direction>, e: Tile)
  {
    e in state && Propose(state, dirs, e).Some? &&
    forall f :: f in state && Propose(state, dirs, f) == Propose(state, dirs, e) ==> f == e
  }

  /** The elves after one round: those that stay, and the tiles of those
      that move. */
  ghost function Next(state: set<Tile>, dirs: seq<Direction>): set<Tile>
  {
    (set e | e in state && !Unique(state, dirs, e)) +
    (set e | e in state && Unique(state, dirs, e) :: Propose(state, dirs, e).value)
  }

  /** A round without any unique proposal leaves every elf in place. */
  lemma {:induction false} NoMoveStays(state: set<Tile>, dirs: seq<Direction>)
    requires forall e :: e in state ==> !Unique(state, dirs, e)
    ensures Next(state, dirs) == state
  {
  }

  /** An elf that moves leaves a tile no elf held before. */
  lemma {:induction false} MoveChanges(state: set<Tile>, dirs: seq<Direction>, e: Tile)
    requires Unique(state, dirs, e)
    ensures Next(state, dirs) != state
  {
    var p := Propose(state, dirs, e).value;
    assert p in Next(state, dirs) && p !in state;
  }

  /** `search.rotate_left(1)`. */
  function RotateLeft(dirs: seq<Direction>): (r: seq<Direction>)
    ensures |r| == |dirs|
    ensures forall i :: 0 <= i < |dirs| ==> r[i] == dirs[(i + 1) % |dirs|]
  {
    if dirs == [] then [] else dirs[1..] + [dirs[0]]
  }

  /** The starting order North, South, West, East. */
  function Initial(): seq<Direction>
  {
    [North, South, West, East]
  }

  /** Four rotations give the starting order back. */
  lemma {:induction false} RotateFour()
    ensures RotateLeft(RotateLeft(RotateLeft(RotateLeft(Initial())))) == Initial()
  {
  }

  /** `parse_input`: every '#' is an elf at its column and line. */
  function Parse(lines: seq<string>): (elves: set<Tile>)
    requires forall y, x :: 0 <= y < |lines| && 0 <= x < |lines[y]| ==> lines[y][x] in {'.', '#'}
    ensures forall t :: t in elves <==> 0 <= t.1 < |lines| && 0 <= t.0 < |lines[t.1]| && lines[t.1][t.0] == '#'
  {
    set y, x | 0 <= y < |lines| && 0 <= x < |lines[y]| && lines[y][x] == '#' :: (x, y)
  }

  /** The tiles of the rectangle [x0, x1] x [y0, y1]. */
  ghost function Rect(x0: int, x1: int, y0: int, y1: int): set<Tile>
  {
    set x: int, y: int | x0 <= x <= x1 && y0 <= y <= y1 :: (x, y)
  }

  lemma {:induction false} ColumnCard(x: int, y0: int, y1: int)
    requires y0 <= y1 + 1
    ensures |Rect(x, x, y0, y1)| == y1 - y0 + 1
    decreases y1 - y0
  {
    if y0 <= y1 {
      ColumnCard(x, y0, y1 - 1);
      var smaller, whole := Rect(x, x, y0, y1 - 1), Rect(x, x, y0, y1);
      forall t | t in whole
        ensures t in smaller + {(x, y1)}
      {
        assert t == (t.0, t.1);
      }
      assert whole == smaller + {(x, y1)};
    } else {
      assert Rect(x, x, y0, y1) == {};
    }
  }

  /** A rectangle of width w and height h has w * h tiles. */
  lemma {:induction false} RectCard(x0: int, x1: int, y0: int, y1: int)
    requires x0 <= x1 + 1 && y0 <= y1 + 1
    ensures |Rect(x0, x1, y0, y1)| == (x1 - x0 + 1) * (y1 - y0 + 1)
    decreases x1 - x0
  {
    if x0 <= x1 {
      RectCard(x0, x1 - 1, y0, y1);
      ColumnCard(x1, y0, y1);
      var left, column, whole := Rect(x0, x1 - 1, y0, y1), Rect(x1, x1, y0, y1), Rect(x0, x1, y0, y1);
      forall t | t in whole
        ensures t in left + column
      {
        assert t == (t.0, t.1);
      }
      assert whole == left + column;
      assert left !! column;
      assert |whole| == |left| + |column|;
      assert (x1 - x0) * (y1 - y0 + 1) + (y1 - y0 + 1) == (x1 - x0 + 1) * (y1 - y0 + 1);
    } else {
      assert Rect(x0, x1, y0, y1) == {};
    }
  }
}
