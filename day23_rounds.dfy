/** Day 23: the round loops of both parts and the bounding box. */
module Day23Rounds {
  import opened Common
  import opened Day23
  import opened Day23Step

  /** `step` applied `n` times to `s`. */
  ghost function Iterate<S>(step: S -> S, s: S, n: nat): S
  {
    if n == 0 then s else step(Iterate(step, s, n - 1))
  }

  /** Iterations may equally be counted from the state after the first. */
  lemma {:induction false} IterateShift<S>(step: S -> S, s: S, j: nat)
    ensures Iterate(step, s, j + 1) == Iterate(step, step(s), j)
  {
    if j > 0 {
      IterateShift(step, s, j - 1);
    }
  }

  /** The number of the first step that does not move, counting the step
      from `s` as `n + 1` and looking at most `fuel` steps ahead. */
  ghost function FirstQuiet<S>(step: S -> S, moves: S -> bool, s: S, n: nat, fuel: nat): Option<nat>
    decreases fuel
  {
    if fuel == 0 then None
    else if !moves(s) then Some(n + 1)
    else FirstQuiet(step, moves, step(s), n + 1, fuel - 1)
  }

  /** What `FirstQuiet` finds is a step within the fuel that does not move. */
  lemma {:induction false} FirstQuietIsQuiet<S>(step: S -> S, moves: S -> bool, s: S, n: nat, fuel: nat)
    requires FirstQuiet(step, moves, s, n, fuel).Some?
    ensures var m := FirstQuiet(step, moves, s, n, fuel).value;
            n < m <= n + fuel && !moves(Iterate(step, s, m - n - 1))
    decreases fuel
  {
    if moves(s) {
      FirstQuietIsQuiet(step, moves, step(s), n + 1, fuel - 1);
      IterateShift(step, s, FirstQuiet(step, moves, s, n, fuel).value - n - 2);
    }
  }

  /** Every step before the one `FirstQuiet` finds, and every step within
      the fuel when it finds none, moves. */
  lemma {:induction false} FirstQuietMoving<S>(step: S -> S, moves: S -> bool, s: S, n: nat, fuel: nat, j: nat)
    requires j < fuel
    requires FirstQuiet(step, moves, s, n, fuel).Some? ==> j < FirstQuiet(step, moves, s, n, fuel).value - n - 1
    ensures moves(Iterate(step, s, j))
    decreases fuel
  {
    if moves(s) && j > 0 {
      FirstQuietMoving(step, moves, step(s), n + 1, fuel - 1, j - 1);
      IterateShift(step, s, j - 1);
    }
  }

  /** One round on the elves and the order: move, then rotate. */
  ghost const Round: ((set<Tile>, seq<Direction>)) -> (set<Tile>, seq<Direction>) :=
    (at: (set<Tile>, seq<Direction>)) => (Next(at.0, at.1), RotateLeft(at.1))

  /** A round moves some elf: the elves after it are not those before. */
  ghost const Moving: ((set<Tile>, seq<Direction>)) -> bool :=
    (at: (set<Tile>, seq<Direction>)) => Next(at.0, at.1) != at.0

  /** The elves and the order after `n` rounds from the start. */
  ghost function Rounds(elves: set<Tile>, n: nat): (set<Tile>, seq<Direction>)
  {
    Iterate(Round, (elves, Initial()), n)
  }

  /** The number of the first round that moves nobody, within `fuel`;
      `FirstQuietIsQuiet` and `FirstQuietMoving` say what that means. */
  ghost function Settle(elves: set<Tile>, fuel: nat): Option<nat>
  {
    FirstQuiet(Round, Moving, (elves, Initial()), 0, fuel)
  }

  /** The tight bounding box of a non-empty set: every tile inside, every
      side touched by some tile. */
  ghost predicate BoundingBox(s: set<Tile>, x0: int, x1: int, y0: int, y1: int)
  {
    (forall t :: t in s ==> x0 <= t.0 <= x1 && y0 <= t.1 <= y1) &&
    (exists t :: t in s && t.0 == x0) && (exists t :: t in s && t.0 == x1) &&
    (exists t :: t in s && t.1 == y0) && (exists t :: t in s && t.1 == y1)
  }

  /** The fold of `part_one` that finds the smallest and largest x and y. */
  method Bounds(s: set<Tile>) returns (x0: int, x1: int, y0: int, y1: int)
    requires s != {}
    ensures BoundingBox(s, x0, x1, y0, y1)
  {
    var first :| first in s;
    x0, x1, y0, y1 := first.0, first.0, first.1, first.1;
    var todo := s - {first};
    while todo != {}
      invariant forall t :: t in s ==> t in todo || (x0 <= t.0 <= x1 && y0 <= t.1 <= y1)
      invariant forall t :: t in todo ==> t in s
      invariant BoundingBox(s - todo, x0, x1, y0, y1)
      decreases |todo|
    {
      var t :| t in todo;
      x0 := if t.0 < x0 then t.0 else x0;
      x1 := if t.0 > x1 then t.0 else x1;
      y0 := if t.1 < y0 then t.1 else y0;
      y1 := if t.1 > y1 then t.1 else y1;
      todo := todo - {t};
    }
  }

  /** `part_one`: ten rounds, each with the order rotated afterwards, then
      the empty tiles of the bounding box: its area less the elves. */
  method PartOne(elves: set<Tile>) returns (empty: int)
    requires elves != {}
    ensures var s := Rounds(elves, 10).0;
            exists x0, x1, y0, y1 :: BoundingBox(s, x0, x1, y0, y1) && empty == |Rect(x0, x1, y0, y1) - s|
  {
    var state := elves;
    var search := Initial();
    for i := 0 to 10
      invariant (state, search) == Rounds(elves, i)
      invariant |state| == |elves|
    {
      var moved;
      state, search, moved := Advance(state, search);
    }
    var x0, x1, y0, y1 := Bounds(state);
    empty := (x1 - x0 + 1) * (y1 - y0 + 1) - |state|;
    ghost var t :| t in state;
    RectCard(x0, x1, y0, y1);
    assert state <= Rect(x0, x1, y0, y1) by {
      forall u | u in state
        ensures u in Rect(x0, x1, y0, y1)
      {
        assert u == (u.0, u.1);
      }
    }
    assert |Rect(x0, x1, y0, y1) - state| == |Rect(x0, x1, y0, y1)| - |state|;
  }

  /** One round of either loop: step the elves, then rotate the order. */
  method Advance(state: set<Tile>, search: seq<Direction>)
    returns (next: set<Tile>, rotated: seq<Direction>, movement: bool)
    ensures (next, rotated) == Round((state, search))
    ensures movement == Moving((state, search))
    ensures |next| == |state|
  {
    next, movement := Step(state, search);
    rotated := RotateLeft(search);
  }

  /** `part_two`: run rounds until one moves nobody and return its number,
      counting from 1; `fuel` bounds the rounds, and `None` means every
      round within it moved an elf. */
  method PartTwo(elves: set<Tile>, fuel: nat) returns (r: Option<nat>)
    ensures r == Settle(elves, fuel)
  {
    var state := elves;
    var search := Initial();
    var round: nat := 0;
    while round < fuel
      invariant round <= fuel
      invariant Settle(elves, fuel) == FirstQuiet(Round, Moving, (state, search), round, fuel - round)
    {
      var movement;
      state, search, movement := Advance(state, search);
      if !movement {
        return Some(round + 1);
      }
      round := round + 1;
    }
    return None;
  }
}
