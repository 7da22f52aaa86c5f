/** Day 22: sand bricks. This file holds the bricks, their text form, the
    cells a brick covers, and the sort by an integer key that stands for
    the source's sorts. */
module Day22 {
  import opened Common

  /** A cell: x, y and the height z. */
  type Coord = (nat, nat, nat)

  /** An (x, y) column. */
  type Column = (nat, nat)

  /** A brick from its `start` corner to its `end` corner, both included. */
  datatype Brick = Brick(start: Coord, end: Coord)

  /** `parse_coord`: the first three comma-separated pieces read as
      `usize`. Pieces after the third are never looked at; a missing or
      unreadable piece is the `expect` panic, `None` here. */
  function ParseCoord(s: string): (r: Option<Coord>)
    ensures r.Some? ==> r.value.0 <= U64_MAX && r.value.1 <= U64_MAX && r.value.2 <= U64_MAX
    ensures r.Some? ==> |Split(s, ",")| >= 3
  {
    var parts := Split(s, ",");
    if |parts| < 3 then None
    else
      match (ParseNat(parts[0], U64_MAX), ParseNat(parts[1], U64_MAX), ParseNat(parts[2], U64_MAX))
      case (Some(x), Some(y), Some(z)) => Some((x, y, z))
      case _ => None
  }

  /** `parse_cube`: the text before the first '~' is the start, the text
      after it the end. */
  function ParseBrick(line: string): (r: Option<Brick>)
    ensures r.Some? ==> SplitOnce(line, "~").Some?
  {
    match SplitOnce(line, "~")
    case None => None
    case Some((a, b)) =>
      match (ParseCoord(a), ParseCoord(b))
      case (Some(s), Some(e)) => Some(Brick(s, e))
      case _ => None
  }

  /** The text of a corner, "x,y,z". */
  function RenderCoord(c: Coord): string
  {
    Join([Decimal(c.0), Decimal(c.1), Decimal(c.2)], ",")
  }

  /** The text of a brick, "x,y,z~x,y,z". */
  function RenderBrick(b: Brick): string
  {
    RenderCoord(b.start) + "~" + RenderCoord(b.end)
  }

  lemma {:induction false} DecimalFree(n: nat, c: char)
    requires !IsDigit(c)
    ensures Free(Decimal(n), [c])
  {
    FreeChar(Decimal(n), c);
  }

  lemma {:induction false} JoinThree(a: string, b: string, c: string, sep: string)
    ensures Join([a, b, c], sep) == a + sep + (b + sep + c)
  {
    assert [a, b, c][1..] == [b, c];
    assert [b, c][1..] == [c];
    assert Join([c], sep) == c;
    assert Join([b, c], sep) == b + sep + c;
  }

  /** A text without `sep` in front of `sep` is split off first. */
  lemma {:induction false} SplitFront(a: string, sep: string, b: string)
    requires |sep| == 1 && Free(a, sep)
    ensures Split(a + sep + b, sep) == [a] + Split(b, sep)
  {
    SplitOnceAt(a, sep, b);
  }

  lemma {:induction false} RenderCoordFree(c: Coord)
    ensures Free(RenderCoord(c), "~")
  {
    var s := RenderCoord(c);
    JoinThree(Decimal(c.0), Decimal(c.1), Decimal(c.2), ",");
    assert s == Decimal(c.0) + "," + (Decimal(c.1) + "," + Decimal(c.2));
    forall i | 0 <= i < |s|
      ensures s[i] != '~'
    {
      if i < |Decimal(c.0)| {
        assert s[i] == Decimal(c.0)[i];
      } else if i == |Decimal(c.0)| {
      } else if i < |Decimal(c.0)| + 1 + |Decimal(c.1)| {
        assert s[i] == Decimal(c.1)[i - |Decimal(c.0)| - 1];
      } else if i == |Decimal(c.0)| + 1 + |Decimal(c.1)| {
      } else {
        assert s[i] == Decimal(c.2)[i - |Decimal(c.0)| - |Decimal(c.1)| - 2];
      }
    }
    FreeChar(s, '~');
  }

  /** A corner reads back from its text. */
  lemma {:induction false} ParseRenderCoord(c: Coord)
    requires c.0 <= U64_MAX && c.1 <= U64_MAX && c.2 <= U64_MAX
    ensures ParseCoord(RenderCoord(c)) == Some(c)
  {
    var parts := [Decimal(c.0), Decimal(c.1), Decimal(c.2)];
    DecimalFree(c.0, ',');
    DecimalFree(c.1, ',');
    DecimalFree(c.2, ',');
    SplitJoin(parts, ",");
    ParseNatDecimal(c.0, U64_MAX);
    ParseNatDecimal(c.1, U64_MAX);
    ParseNatDecimal(c.2, U64_MAX);
  }

  /** Three comma-free texts in front of a comma and `rest` are the first
      three pieces. */
  lemma {:induction false} SplitThree(dx: string, dy: string, dz: string, rest: string)
    requires Free(dx, ",") && Free(dy, ",") && Free(dz, ",")
    ensures var parts := Split(dx + "," + (dy + "," + (dz + "," + rest)), ",");
            |parts| >= 3 && parts[0] == dx && parts[1] == dy && parts[2] == dz
  {
    var r2 := dz + "," + rest;
    var r1 := dy + "," + r2;
    SplitFront(dz, ",", rest);
    SplitFront(dy, ",", r2);
    SplitFront(dx, ",", r1);
    var p2, p1 := Split(r2, ","), Split(r1, ",");
    assert p2[0] == dz;
    assert p1 == [dy] + p2;
    assert p1[0] == dy && p1[1] == dz;
  }

  /** Pieces after the third are ignored: a corner followed by a comma and
      any text still reads as that corner. */
  lemma {:induction false} ParseCoordIgnoresRest(c: Coord, rest: string)
    requires c.0 <= U64_MAX && c.1 <= U64_MAX && c.2 <= U64_MAX
    ensures ParseCoord(RenderCoord(c) + "," + rest) == Some(c)
  {
    var dx, dy, dz := Decimal(c.0), Decimal(c.1), Decimal(c.2);
    DecimalFree(c.0, ',');
    DecimalFree(c.1, ',');
    DecimalFree(c.2, ',');
    JoinThree(dx, dy, dz, ",");
    assert RenderCoord(c) + "," + rest == dx + "," + (dy + "," + (dz + "," + rest));
    SplitThree(dx, dy, dz, rest);
    ParseNatDecimal(c.0, U64_MAX);
    ParseNatDecimal(c.1, U64_MAX);
    ParseNatDecimal(c.2, U64_MAX);
  }

  /** A brick reads back from its text. */
  lemma {:induction false} ParseRenderBrick(b: Brick)
    requires b.start.0 <= U64_MAX && b.start.1 <= U64_MAX && b.start.2 <= U64_MAX
    requires b.end.0 <= U64_MAX && b.end.1 <= U64_MAX && b.end.2 <= U64_MAX
    ensures ParseBrick(RenderBrick(b)) == Some(b)
  {
    RenderCoordFree(b.start);
    SplitOnceAt(RenderCoord(b.start), "~", RenderCoord(b.end));
    ParseRenderCoord(b.start);
    ParseRenderCoord(b.end);
  }

  /** The brick covers cell `c`. */
  predicate InBox(b: Brick, c: Coord)
  {
    b.start.0 <= c.0 <= b.end.0 && b.start.1 <= c.1 <= b.end.1 && b.start.2 <= c.2 <= b.end.2
  }

  /** The number of values in [lo, hi]. */
  function Span(lo: nat, hi: nat): nat
  {
    if lo <= hi then hi - lo + 1 else 0
  }

  /** `a * b` as repeated addition, which keeps the counting lemmas
      linear. */
  function Times(a: nat, b: nat): nat
  {
    if a == 0 then 0 else b + Times(a - 1, b)
  }

  lemma {:induction false} TimesMul(a: nat, b: nat)
    ensures Times(a, b) == a * b
  {
    if a > 0 {
      TimesMul(a - 1, b);
      assert a * b == b + (a - 1) * b;
    }
  }

  /** The innermost range of `Brick::iter`: z from `z` to the top. */
  function ZCells(b: Brick, x: nat, y: nat, z: nat): (r: seq<Coord>)
    ensures forall c :: c in r <==> c.0 == x && c.1 == y && z <= c.2 <= b.end.2
    decreases b.end.2 + 1 - z
  {
    if z > b.end.2 then [] else [(x, y, z)] + ZCells(b, x, y, z + 1)
  }

  /** The middle range: y from `y` to the end, each with its z range. */
  function YCells(b: Brick, x: nat, y: nat): (r: seq<Coord>)
    ensures forall c :: c in r <==> c.0 == x && y <= c.1 <= b.end.1 && b.start.2 <= c.2 <= b.end.2
    decreases b.end.1 + 1 - y
  {
    if y > b.end.1 then [] else ZCells(b, x, y, b.start.2) + YCells(b, x, y + 1)
  }

  /** The outer range: x from `x` to the end, each with its y ranges. */
  function XCells(b: Brick, x: nat): (r: seq<Coord>)
    ensures forall c :: c in r <==> x <= c.0 <= b.end.0 && b.start.1 <= c.1 <= b.end.1 && b.start.2 <= c.2 <= b.end.2
    decreases b.end.0 + 1 - x
  {
    if x > b.end.0 then [] else YCells(b, x, b.start.1) + XCells(b, x + 1)
  }

  /** `Brick::iter`: every cell of the box, x outermost and z innermost;
      a brick whose end lies below its start on some axis has no cell. */
  function Cells(b: Brick): (r: seq<Coord>)
    ensures forall c :: c in r <==> InBox(b, c)
  {
    XCells(b, b.start.0)
  }

  lemma {:induction false} ZCount(b: Brick, x: nat, y: nat, z: nat)
    ensures |ZCells(b, x, y, z)| == Span(z, b.end.2)
    decreases b.end.2 + 1 - z
  {
    if z <= b.end.2 {
      ZCount(b, x, y, z + 1);
    }
  }

  lemma {:induction false} YCount(b: Brick, x: nat, y: nat)
    ensures |YCells(b, x, y)| == Times(Span(y, b.end.1), Span(b.start.2, b.end.2))
    decreases b.end.1 + 1 - y
  {
    if y <= b.end.1 {
      YCount(b, x, y + 1);
      ZCount(b, x, y, b.start.2);
      assert Span(y, b.end.1) == Span(y + 1, b.end.1) + 1;
    }
  }

  lemma {:induction false} XCount(b: Brick, x: nat)
    ensures |XCells(b, x)| == Times(Span(x, b.end.0), Times(Span(b.start.1, b.end.1), Span(b.start.2, b.end.2)))
    decreases b.end.0 + 1 - x
  {
    if x <= b.end.0 {
      XCount(b, x + 1);
      YCount(b, x, b.start.1);
      assert Span(x, b.end.0) == Span(x + 1, b.end.0) + 1;
    }
  }

  /** The number of cells is the box's volume, so no cell comes twice. */
  lemma {:induction false} CellsCount(b: Brick)
    ensures |Cells(b)| == Span(b.start.0, b.end.0) * (Span(b.start.1, b.end.1) * Span(b.start.2, b.end.2))
  {
    var sy, sz := Span(b.start.1, b.end.1), Span(b.start.2, b.end.2);
    XCount(b, b.start.0);
    TimesMul(sy, sz);
    TimesMul(Span(b.start.0, b.end.0), sy * sz);
  }

  /** `s` is in ascending order of `key`. */
  predicate SortedBy<T>(s: seq<T>, key: T -> int)
  {
    forall i, j :: 0 <= i < j < |s| ==> key(s[i]) <= key(s[j])
  }

  /** A sorted sequence stays sorted with an element in front whose key is
      not larger than its first. */
  lemma {:induction false} ConsSorted<T>(x: T, s: seq<T>, key: T -> int)
    requires SortedBy(s, key)
    requires s != [] ==> key(x) <= key(s[0])
    ensures SortedBy([x] + s, key)
  {
    var r := [x] + s;
    forall i, j | 0 <= i < j < |r|
      ensures key(r[i]) <= key(r[j])
    {
      if i == 0 && j > 1 {
        assert key(s[0]) <= key(s[j - 1]);
      }
    }
  }

  /** `x` goes in front of the first element whose key is not smaller. */
  function InsertBy<T>(x: T, s: seq<T>, key: T -> int): (r: seq<T>)
    requires SortedBy(s, key)
    ensures |r| == |s| + 1
    ensures r[0] == x || (s != [] && r[0] == s[0])
    ensures multiset(r) == multiset(s) + multiset{x}
    ensures SortedBy(r, key)
  {
    if s == [] || key(x) <= key(s[0]) then
      ConsSorted(x, s, key);
      [x] + s
    else
      var rest := InsertBy(x, s[1..], key);
      assert s == [s[0]] + s[1..];
      ConsSorted(s[0], rest, key);
      [s[0]] + rest
  }

  /** Insertion sort by `key`, the order the model gives the source's
      sorts: a permutation of `s` in ascending order of `key`. */
  function SortBy<T>(s: seq<T>, key: T -> int): (r: seq<T>)
    ensures multiset(r) == multiset(s)
    ensures SortedBy(r, key)
    ensures |r| == |s|
  {
    if s == [] then []
    else
      assert s == [s[0]] + s[1..];
      InsertBy(s[0], SortBy(s[1..], key), key)
  }

  function Reversed<T>(s: seq<T>): (r: seq<T>)
    ensures |r| == |s|
    ensures forall i :: 0 <= i < |s| ==> r[i] == s[|s| - 1 - i]
  {
    if s == [] then [] else Reversed(s[1..]) + [s[0]]
  }

  /** The entries of `get_cubes_by_z`: index, bottom z and top z of every
      brick. */
  function Entries(bricks: seq<Brick>): (r: seq<(nat, nat, nat)>)
    ensures |r| == |bricks|
    ensures forall i :: 0 <= i < |bricks| ==> r[i] == (i, bricks[i].start.2, bricks[i].end.2)
  {
    seq(|bricks|, i requires 0 <= i < |bricks| => (i, bricks[i].start.2, bricks[i].end.2))
  }

  /** The sort key of `get_cubes_by_z`: an entry's bottom z. */
  function BottomZ(e: (nat, nat, nat)): int
  {
    e.1
  }

  /** `get_cubes_by_z`: the entries sorted by bottom z. */
  function ByZ(bricks: seq<Brick>): seq<(nat, nat, nat)>
  {
    SortBy(Entries(bricks), BottomZ)
  }

  /** `get_cubes_by_z` holds exactly one entry per brick, with that
      brick's bottom and top z, in ascending order of bottom z. */
  lemma {:induction false} ByZEntries(bricks: seq<Brick>)
    ensures |ByZ(bricks)| == |bricks|
    ensures SortedBy(ByZ(bricks), BottomZ)
    ensures forall e: (nat, nat, nat) :: e in ByZ(bricks) <==> e.0 < |bricks| && e.1 == bricks[e.0].start.2 && e.2 == bricks[e.0].end.2
  {
    var order, entries := ByZ(bricks), Entries(bricks);
    assert multiset(order) == multiset(entries);
    forall e: (nat, nat, nat)
      ensures e in order <==> e in entries
    {
      assert e in order <==> e in multiset(order);
      assert e in entries <==> e in multiset(entries);
    }
    forall e: (nat, nat, nat) | e.0 < |bricks| && e.1 == bricks[e.0].start.2 && e.2 == bricks[e.0].end.2
      ensures e in entries
    {
      assert entries[e.0] == e;
    }
  }
}
