/** Day 8, part two: how far a tree house can see in each direction, and the
    best product of the four viewing distances. Here `(x, y)` is column `x`
    of row `y`: the tree is `grid[y][x]`. */
module Day08Scenic {
  import opened Common
  import opened Day08

  /** The trees seen from `(x, y)` looking along `(dx, dy)` from a house of
      height `h`: every tree up to and including the first one at least as
      tall, or up to the edge. */
  function View(g: Forest, h: nat, x: int, y: int, dx: int, dy: int): nat
    requires Wide(g) && Inside(|g|, x, y) && Unit(dx, dy)
    decreases Remaining(|g|, x, y, dx, dy)
  {
    var nx, ny := x + dx, y + dy;
    if !Inside(|g|, nx, ny) then 0
    else if g[ny][nx] >= h then 1
    else 1 + View(g, h, nx, ny, dx, dy)
  }

  /** `k` steps from `a` are `k - 1` steps from one step on. */
  lemma StepShift(a: int, d: int, k: nat)
    requires -1 <= d <= 1 && k >= 1
    ensures Step(a, d, k) == Step(a + d, d, k - 1)
  {
  }

  /** The viewing distance reaches no further than the edge, and is zero
      exactly on the edge. */
  lemma {:induction false} ViewBound(g: Forest, h: nat, x: int, y: int, dx: int, dy: int)
    requires Wide(g) && Inside(|g|, x, y) && Unit(dx, dy)
    ensures View(g, h, x, y, dx, dy) <= Remaining(|g|, x, y, dx, dy) - 1
    ensures View(g, h, x, y, dx, dy) == 0 <==> Remaining(|g|, x, y, dx, dy) == 1
    decreases Remaining(|g|, x, y, dx, dy)
  {
    if Inside(|g|, x + dx, y + dy) && g[y + dy][x + dx] < h {
      ViewBound(g, h, x + dx, y + dy, dx, dy);
    }
  }

  /** Every tree the view passes over before its last one is lower than
      the house. */
  lemma {:induction false} ViewLower(g: Forest, h: nat, x: int, y: int, dx: int, dy: int, k: nat)
    requires Wide(g) && Inside(|g|, x, y) && Unit(dx, dy)
    requires 1 <= k < View(g, h, x, y, dx, dy)
    ensures Inside(|g|, Step(x, dx, k), Step(y, dy, k))
    ensures g[Step(y, dy, k)][Step(x, dx, k)] < h
    decreases k
  {
    var nx, ny := x + dx, y + dy;
    if k > 1 {
      StepShift(x, dx, k);
      StepShift(y, dy, k);
      ViewLower(g, h, nx, ny, dx, dy, k - 1);
    }
  }

  /** A view that stops short of the edge stops at a tree at least as tall
      as the house. */
  lemma {:induction false} ViewStop(g: Forest, h: nat, x: int, y: int, dx: int, dy: int)
    requires Wide(g) && Inside(|g|, x, y) && Unit(dx, dy)
    requires View(g, h, x, y, dx, dy) < Remaining(|g|, x, y, dx, dy) - 1
    ensures var v := View(g, h, x, y, dx, dy);
      Inside(|g|, Step(x, dx, v), Step(y, dy, v)) && g[Step(y, dy, v)][Step(x, dx, v)] >= h
    decreases Remaining(|g|, x, y, dx, dy)
  {
    var nx, ny := x + dx, y + dy;
    ViewBound(g, h, x, y, dx, dy);
    if g[ny][nx] < h {
      var v := View(g, h, nx, ny, dx, dy);
      ViewStop(g, h, nx, ny, dx, dy);
      StepShift(x, dx, v + 1);
      StepShift(y, dy, v + 1);
    }
  }

  /** A tree on the edge sees nothing outward. */
  lemma {:induction false} EdgeViewZero(g: Forest, h: nat, x: int, y: int, dx: int, dy: int)
    requires Wide(g) && Inside(|g|, x, y) && Unit(dx, dy)
    requires !Inside(|g|, x + dx, y + dy)
    ensures View(g, h, x, y, dx, dy) == 0
  {
  }

  /** `trees_along_axis`: steps first, stops at the edge or after the first
      tree at least `highest` tall. */
  method TreesAlongAxis(g: Forest, highest: nat, x0: int, y0: int, dx: int, dy: int) returns (visible: nat)
    requires Wide(g) && Inside(|g|, x0, y0) && Unit(dx, dy)
    ensures visible == View(g, highest, x0, y0, dx, dy)
  {
    var n := |g|;
    var x, y := x0, y0;
    visible := 0;
    while true
      invariant Inside(n, x, y)
      invariant visible + View(g, highest, x, y, dx, dy) == View(g, highest, x0, y0, dx, dy)
      decreases Remaining(n, x, y, dx, dy)
    {
      x, y := x + dx, y + dy;
      if !Inside(n, x, y) {
        break;
      }
      var height := g[y][x];
      visible := visible + 1;
      if height >= highest {
        break;
      }
    }
  }

  /** The scenic score of the tree in column `x` of row `y`. */
  function Score(g: Forest, x: int, y: int): nat
    requires Wide(g) && Inside(|g|, x, y)
  {
    var h := g[y][x];
    View(g, h, x, y, 1, 0) * View(g, h, x, y, -1, 0) * View(g, h, x, y, 0, 1) * View(g, h, x, y, 0, -1)
  }

  /** A tree on the edge scores zero. */
  lemma {:induction false} EdgeScoreZero(g: Forest, x: int, y: int)
    requires Wide(g) && Inside(|g|, x, y)
    requires x == 0 || y == 0 || x == |g| - 1 || y == |g| - 1
    ensures Score(g, x, y) == 0
  {
    var h := g[y][x];
    if x == 0 {
      EdgeViewZero(g, h, x, y, -1, 0);
    } else if y == 0 {
      EdgeViewZero(g, h, x, y, 0, -1);
    } else if x == |g| - 1 {
      EdgeViewZero(g, h, x, y, 1, 0);
    } else {
      EdgeViewZero(g, h, x, y, 0, 1);
    }
  }

  /** The score computed by the loop body of `part_two`. */
  method ScoreAt(g: Forest, x: int, y: int) returns (score: nat)
    requires Wide(g) && Inside(|g|, x, y)
    ensures score == Score(g, x, y)
  {
    var height := g[y][x];
    var right := TreesAlongAxis(g, height, x, y, 1, 0);
    var left := TreesAlongAxis(g, height, x, y, -1, 0);
    var down := TreesAlongAxis(g, height, x, y, 0, 1);
    var up := TreesAlongAxis(g, height, x, y, 0, -1);
    score := right * left * down * up;
  }

  /** `std::cmp::max` on `Option`, where `None` is below every `Some`. */
  function MaxOption(a: Option<nat>, b: Option<nat>): (m: Option<nat>)
    ensures m == a || m == b
    ensures m.None? <==> a.None? && b.None?
    ensures a.Some? ==> m.Some? && m.value >= a.value
    ensures b.Some? ==> m.Some? && m.value >= b.value
  {
    if a.None? then b
    else if b.None? then a
    else if a.value >= b.value then a
    else b
  }

  /** The loops of `part_two`: the best score over the square, `None` for an
      empty grid, where the source's `unwrap` panics. */
  method BestScore(g: Forest) returns (best: Option<nat>)
    requires Wide(g)
    ensures best.None? <==> |g| == 0
    ensures best.Some? ==> exists x, y :: Inside(|g|, x, y) && best.value == Score(g, x, y)
    ensures best.Some? ==> forall x, y :: Inside(|g|, x, y) ==> Score(g, x, y) <= best.value
  {
    var n := |g|;
    best := None;
    for x := 0 to n
      invariant best.None? <==> x == 0
      invariant best.Some? ==> exists x', y' :: Inside(n, x', y') && best.value == Score(g, x', y')
      invariant best.Some? ==> forall x', y' :: 0 <= x' < x && 0 <= y' < n ==> Score(g, x', y') <= best.value
    {
      for y := 0 to n
        invariant y > 0 || x > 0 ==> best.Some?
        invariant y == 0 && x == 0 ==> best.None?
        invariant best.Some? ==> exists x', y' :: Inside(n, x', y') && best.value == Score(g, x', y')
        invariant best.Some? ==> forall x', y' :: 0 <= x' < x && 0 <= y' < n ==> Score(g, x', y') <= best.value
        invariant best.Some? ==> forall y' :: 0 <= y' < y ==> Score(g, x, y') <= best.value
      {
        var score := ScoreAt(g, x, y);
        best := MaxOption(Some(score), best);
      }
    }
  }

  /** `part_two`: `None` where the source panics: a character that is not a
      digit, a row shorter than the number of rows, or no rows at all. */
  method PartTwo(input: string) returns (answer: Option<nat>)
    ensures answer.Some? <==> Parse(input).Some? && Wide(Parse(input).value) && |Parse(input).value| > 0
    ensures answer.Some? ==> var g := Parse(input).value;
      (exists x, y :: Inside(|g|, x, y) && answer.value == Score(g, x, y))
      && forall x, y :: Inside(|g|, x, y) ==> Score(g, x, y) <= answer.value
  {
    var grid := Parse(input);
    if grid.None? || !Wide(grid.value) {
      return None;
    }
    answer := BestScore(grid.value);
  }
}
