/** Day 8: a square forest of tree heights. Part one counts the trees seen
    from outside: walking in from every edge, a tree is seen when it is
    taller than every tree before it on the walk. */
module Day08 {
  import opened Common

  /** Tree heights, row by row: `grid[x][y]` is row `x`, column `y`. */
  type Forest = seq<seq<nat>>

  type Cell = (int, int)

  /** One line of digits; `to_digit` failing is the panic, `None`. */
  function ReadRow(line: string): (r: Option<seq<nat>>)
    ensures r.Some? ==> |r.value| == |line| && forall i :: 0 <= i < |line| ==> r.value[i] < 10
  {
    if line == [] then Some([])
    else if !IsDigit(line[0]) then None
    else
      match ReadRow(line[1..])
      case None => None
      case Some(rest) => Some([DigitValue(line[0])] + rest)
  }

  function ReadRows(lines: seq<string>): (r: Option<Forest>)
    ensures r.Some? ==> |r.value| == |lines|
  {
    if lines == [] then Some([])
    else
      match (ReadRow(lines[0]), ReadRows(lines[1..]))
      case (Some(row), Some(rest)) => Some([row] + rest)
      case _ => None
  }

  /** `read_elves`. */
  function Parse(input: string): Option<Forest>
  {
    ReadRows(Lines(input))
  }

  function RowText(row: seq<nat>): (s: string)
    requires forall i :: 0 <= i < |row| ==> row[i] < 10
    ensures |s| == |row| && forall i :: 0 <= i < |row| ==> IsDigit(s[i]) && DigitValue(s[i]) == row[i]
  {
    seq(|row|, i requires 0 <= i < |row| => ('0' as int + row[i]) as char)
  }

  /** Heights are single digits. */
  predicate Digits(g: Forest)
  {
    forall r, c :: 0 <= r < |g| && 0 <= c < |g[r]| ==> g[r][c] < 10
  }

  function Text(g: Forest): string
    requires Digits(g) && |g| >= 1
  {
    Join(seq(|g|, r requires 0 <= r < |g| => RowText(g[r])), "\n") + "\n"
  }

  lemma {:induction false} ReadRowText(row: seq<nat>)
    requires forall i :: 0 <= i < |row| ==> row[i] < 10
    ensures ReadRow(RowText(row)) == Some(row)
    decreases |row|
  {
    if row != [] {
      ReadRowText(row[1..]);
      assert RowText(row)[1..] == RowText(row[1..]);
      assert [row[0]] + row[1..] == row;
    }
  }

  lemma {:induction false} ReadRowsText(g: Forest)
    requires Digits(g)
    ensures ReadRows(seq(|g|, r requires 0 <= r < |g| => RowText(g[r]))) == Some(g)
    decreases |g|
  {
    if g != [] {
      var ls := seq(|g|, r requires 0 <= r < |g| => RowText(g[r]));
      ReadRowText(g[0]);
      ReadRowsText(g[1..]);
      assert ls[1..] == seq(|g| - 1, r requires 0 <= r < |g| - 1 => RowText(g[1..][r]));
      assert [g[0]] + g[1..] == g;
    }
  }

  /** Reading a written forest gives it back. */
  lemma {:induction false} ParseRoundTrip(g: Forest)
    requires Digits(g) && |g| >= 1
    ensures Parse(Text(g)) == Some(g)
  {
    var ls := seq(|g|, r requires 0 <= r < |g| => RowText(g[r]));
    forall k | 0 <= k < |ls|
      ensures Free(ls[k], "\n")
    {
      assert '\n' !in ls[k];
      FreeChar(ls[k], '\n');
    }
    LinesRoundTrip(ls);
    ReadRowsText(g);
  }

  /** The solution reads `grid.len()` cells of every row: each row must be at
      least that long, or indexing panics. */
  predicate Wide(g: Forest)
  {
    forall r :: 0 <= r < |g| ==> |g[r]| >= |g|
  }

  predicate Inside(n: nat, x: int, y: int)
  {
    0 <= x < n && 0 <= y < n
  }

  /** The four directions the walks take. */
  predicate Unit(dx: int, dy: int)
  {
    (dx == 0 && (dy == 1 || dy == -1)) || (dy == 0 && (dx == 1 || dx == -1))
  }

  /** The number of cells from `(x, y)` to the edge, both included. */
  function Remaining(n: nat, x: int, y: int, dx: int, dy: int): nat
    requires Inside(n, x, y) && Unit(dx, dy)
  {
    if dx == 1 then n - x else if dx == -1 then x + 1 else if dy == 1 then n - y else y + 1
  }

  /** `a` moved `k` steps of `d`. */
  function Step(a: int, d: int, k: nat): int
  {
    if d == 1 then a + k else if d == -1 then a - k else a
  }

  /** The cells a walk visits: from `(x, y)` one step at a time until it
      leaves the square. */
  function Walk(n: nat, x: int, y: int, dx: int, dy: int): (w: seq<Cell>)
    requires Inside(n, x, y) && Unit(dx, dy)
    ensures |w| == Remaining(n, x, y, dx, dy) && Within(n, w)
    decreases Remaining(n, x, y, dx, dy)
  {
    if Inside(n, x + dx, y + dy) then [(x, y)] + Walk(n, x + dx, y + dy, dx, dy) else [(x, y)]
  }

  /** The `k`-th cell of a walk is `k` steps from its start. */
  lemma {:induction false} WalkAt(n: nat, x: int, y: int, dx: int, dy: int, k: nat)
    requires Inside(n, x, y) && Unit(dx, dy) && k < Remaining(n, x, y, dx, dy)
    ensures Walk(n, x, y, dx, dy)[k] == (Step(x, dx, k), Step(y, dy, k))
    decreases k
  {
    if k > 0 {
      WalkAt(n, x + dx, y + dy, dx, dy, k - 1);
    }
  }

  function Height(g: Forest, p: Cell): nat
    requires Wide(g) && Inside(|g|, p.0, p.1)
  {
    g[p.0][p.1]
  }

  /** Every cell lies in the `n` by `n` square. */
  predicate Within(n: nat, cells: seq<Cell>)
  {
    forall k :: 0 <= k < |cells| ==> Inside(n, cells[k].0, cells[k].1)
  }

  predicate OnGrid(g: Forest, cells: seq<Cell>)
  {
    Within(|g|, cells)
  }

  /** The tree at position `j` of the walk is taller than every tree before. */
  predicate Taller(g: Forest, cells: seq<Cell>, j: nat)
    requires Wide(g) && OnGrid(g, cells) && j < |cells|
  {
    forall i :: 0 <= i < j ==> Height(g, cells[i]) < Height(g, cells[j])
  }

  /** The trees seen along a walk. */
  function Seen(g: Forest, cells: seq<Cell>): set<Cell>
    requires Wide(g) && OnGrid(g, cells)
    decreases |cells|
  {
    if cells == [] then {}
    else
      var k := |cells| - 1;
      Seen(g, cells[..k]) + (if Taller(g, cells, k) then {cells[k]} else {})
  }

  /** The tallest tree so far, `None` before the first: `highest`. */
  function Highest(g: Forest, cells: seq<Cell>): (m: Option<nat>)
    requires Wide(g) && OnGrid(g, cells)
    ensures m.None? <==> cells == []
    ensures m.Some? ==> forall i :: 0 <= i < |cells| ==> Height(g, cells[i]) <= m.value
    ensures m.Some? ==> exists i :: 0 <= i < |cells| && Height(g, cells[i]) == m.value
  {
    if cells == [] then None
    else
      var front, h := Highest(g, cells[..|cells| - 1]), Height(g, cells[|cells| - 1]);
      var m := if front.Some? && front.value >= h then front.value else h;
      assert front.Some? ==> exists i :: 0 <= i < |cells| - 1 && Height(g, cells[i]) == front.value;
      Some(m)
  }

  /** `Some(height) > highest`, with `None` below every `Some`. */
  predicate Above(h: nat, highest: Option<nat>)
  {
    highest.None? || h > highest.value
  }

  /** A tree is taller than all before it exactly when it is above the
      tallest so far. */
  lemma {:induction false} AboveIsTaller(g: Forest, cells: seq<Cell>, p: Cell)
    requires Wide(g) && OnGrid(g, cells) && Inside(|g|, p.0, p.1)
    ensures OnGrid(g, cells + [p])
    ensures Above(Height(g, p), Highest(g, cells)) <==> Taller(g, cells + [p], |cells|)
  {
    var all := cells + [p];
    assert all[|cells|] == p;
    forall i | 0 <= i < |cells|
      ensures all[i] == cells[i]
    {
    }
  }

  /** One step of the walk: the tallest so far and the trees seen, one
      tree on. */
  lemma {:induction false} WalkStep(g: Forest, cells: seq<Cell>, p: Cell)
    requires Wide(g) && OnGrid(g, cells) && Inside(|g|, p.0, p.1)
    ensures OnGrid(g, cells + [p])
    ensures var up := Above(Height(g, p), Highest(g, cells));
      && Highest(g, cells + [p]) == (if up then Some(Height(g, p)) else Highest(g, cells))
      && Seen(g, cells + [p]) == Seen(g, cells) + (if up then {p} else {})
  {
    var all := cells + [p];
    assert all[..|cells|] == cells;
    AboveIsTaller(g, cells, p);
  }

  /** A square of marks, `visible` in the source. */
  predicate Marks(m: seq<seq<bool>>, n: nat)
  {
    |m| == n && forall r :: 0 <= r < n ==> |m[r]| == n
  }

  function Marked(m: seq<seq<bool>>): set<Cell>
  {
    set r, c | 0 <= r < |m| && 0 <= c < |m[r]| && m[r][c] :: (r, c)
  }

  lemma {:induction false} MarkOne(m: seq<seq<bool>>, n: nat, x: nat, y: nat)
    requires Marks(m, n) && x < n && y < n
    ensures Marks(m[x := m[x][y := true]], n)
    ensures Marked(m[x := m[x][y := true]]) == Marked(m) + {(x, y)}
    ensures |Marked(m[x := m[x][y := true]])| == |Marked(m)| + (if m[x][y] then 0 else 1)
  {
    var m' := m[x := m[x][y := true]];
    forall p | p in Marked(m')
      ensures p in Marked(m) + {(x, y)}
    {
      var r, c :| 0 <= r < |m'| && 0 <= c < |m'[r]| && m'[r][c] && p == (r, c);
      if (r, c) != (x, y) {
        assert m[r][c];
      }
    }
    forall p | p in Marked(m) + {(x, y)}
      ensures p in Marked(m')
    {
      if p != (x, y) {
        var r, c :| 0 <= r < |m| && 0 <= c < |m[r]| && m[r][c] && p == (r, c);
        assert m'[r][c];
      }
    }
  }

  /** A walk stays inside the square for exactly `Remaining` steps. */
  lemma {:induction false} StepInside(n: nat, x: int, y: int, dx: int, dy: int, k: nat)
    requires Inside(n, x, y) && Unit(dx, dy)
    ensures Inside(n, Step(x, dx, k), Step(y, dy, k)) <==> k < Remaining(n, x, y, dx, dy)
  {
  }

  lemma AddOne<T>(a: set<T>, s: set<T>, m: set<T>, p: T)
    requires m == a + s
    ensures m + {p} == a + (s + {p})
  {
  }

  /** One step along a walk: the cell reached, the prefix walked, and
      whether the next cell is still inside. */
  lemma {:induction false} WalkAdvance(n: nat, x: int, y: int, dx: int, dy: int, k: nat)
    requires Inside(n, x, y) && Unit(dx, dy) && k < Remaining(n, x, y, dx, dy)
    ensures var w := Walk(n, x, y, dx, dy);
      && w[k] == (Step(x, dx, k), Step(y, dy, k))
      && w[..k + 1] == w[..k] + [w[k]]
      && Step(x, dx, k + 1) == Step(x, dx, k) + dx && Step(y, dy, k + 1) == Step(y, dy, k) + dy
      && (Inside(n, Step(x, dx, k + 1), Step(y, dy, k + 1)) <==> k + 1 < |w|)
  {
    WalkAt(n, x, y, dx, dy, k);
    PrefixSnoc(Walk(n, x, y, dx, dy), k);
    StepInside(n, x, y, dx, dy, k + 1);
  }

  /** The body of the walk at one tree: mark it when it is above the tallest
      so far, and count the mark when it is new. */
  method Visit(g: Forest, ghost visible: seq<seq<bool>>, ghost done: seq<Cell>,
               marked: seq<seq<bool>>, highest: Option<nat>, count: nat, x: int, y: int)
    returns (marked': seq<seq<bool>>, highest': Option<nat>, count': nat)
    requires Wide(g) && OnGrid(g, done) && Inside(|g|, x, y) && Marks(marked, |g|)
    requires highest == Highest(g, done)
    requires Marked(marked) == Marked(visible) + Seen(g, done)
    requires |Marked(marked)| == |Marked(visible)| + count
    ensures OnGrid(g, done + [(x, y)]) && highest' == Highest(g, done + [(x, y)])
    ensures Marks(marked', |g|)
    ensures Marked(marked') == Marked(visible) + Seen(g, done + [(x, y)])
    ensures |Marked(marked')| == |Marked(visible)| + count'
  {
    var height := g[x][y];
    WalkStep(g, done, (x, y));
    marked', highest', count' := marked, highest, count;
    if Above(height, highest) {
      MarkOne(marked, |g|, x, y);
      if !marked[x][y] {
        count' := count + 1;
      }
      marked' := marked[x := marked[x][y := true]];
      highest' := Some(height);
      AddOne(Marked(visible), Seen(g, done), Marked(marked), (x, y));
    }
  }

  /** `mark_visible`: walks from `(x, y)` to the far edge, marks every tree
      taller than all before it, and counts the marks that are new. */
  method MarkVisible(g: Forest, visible: seq<seq<bool>>, x0: int, y0: int, dx: int, dy: int)
    returns (marked: seq<seq<bool>>, newVisible: nat)
    requires Wide(g) && Marks(visible, |g|) && Inside(|g|, x0, y0) && Unit(dx, dy)
    ensures Marks(marked, |g|)
    ensures Marked(marked) == Marked(visible) + Seen(g, Walk(|g|, x0, y0, dx, dy))
    ensures |Marked(marked)| == |Marked(visible)| + newVisible
  {
    var n := |g|;
    ghost var w := Walk(n, x0, y0, dx, dy);
    ghost var k: nat := 0;
    var x, y := x0, y0;
    var highest: Option<nat> := None;
    marked, newVisible := visible, 0;
    // The source tests the edge after each step and breaks; every walk
    // starts inside, so testing before each step visits the same cells.
    while Inside(n, x, y)
      invariant k <= |w| && x == Step(x0, dx, k) && y == Step(y0, dy, k)
      invariant Inside(n, x, y) <==> k < |w|
      invariant OnGrid(g, w[..k]) && highest == Highest(g, w[..k])
      invariant Marks(marked, n)
      invariant Marked(marked) == Marked(visible) + Seen(g, w[..k])
      invariant |Marked(marked)| == |Marked(visible)| + newVisible
      decreases |w| - k
    {
      WalkAdvance(n, x0, y0, dx, dy, k);
      marked, highest, newVisible := Visit(g, visible, w[..k], marked, highest, newVisible, x, y);
      k := k + 1;
      x, y := x + dx, y + dy;
    }
    assert w[..k] == w;
  }
}
