/** Day 14, part two: a spin cycle tilts north, west, south and east. The
    platform is spun until it repeats itself, and the repetition is used to
    skip ahead to the billionth cycle. */
module Day14Cycle {
  import opened Common
  import opened Grids
  import opened Day14
  import opened Day14Platform

  const CYCLES: nat := 1_000_000_000

  /** `tilt_cycle`. */
  function Cycle(g: Platform): (c: Platform)
    requires Rect(g)
    ensures Rect(c) && |c| == |g| && |c[0]| == |g[0]|
  {
    TiltKeepsCubes(g, North);
    var n := Tilt(g, North);
    TiltKeepsCubes(n, West);
    var w := Tilt(n, West);
    TiltKeepsCubes(w, South);
    var s := Tilt(w, South);
    TiltKeepsCubes(s, East);
    Tilt(s, East)
  }

  /** A spin cycle on any grid: a platform that is not rectangular is left
      as it is, which never happens to a parsed one. */
  function Spin(g: Platform): Platform
  {
    if Rect(g) then Cycle(g) else g
  }

  /** `f` applied `n` times. */
  function Iterate<T>(f: T -> T, x: T, n: nat): T
  {
    if n == 0 then x else f(Iterate(f, x, n - 1))
  }

  lemma {:induction false} IterateAdd<T>(f: T -> T, x: T, a: nat, b: nat)
    ensures Iterate(f, Iterate(f, x, a), b) == Iterate(f, x, a + b)
  {
    if b > 0 {
      IterateAdd(f, x, a, b - 1);
    }
  }

  /** Once the value after `p` steps comes back after `i`, it comes back
      every `i - p` steps. */
  lemma {:induction false} Periodic<T>(f: T -> T, x: T, p: nat, i: nat, m: nat)
    requires p < i && Iterate(f, x, p) == Iterate(f, x, i)
    ensures Iterate(f, x, i + m * (i - p)) == Iterate(f, x, i)
  {
    if m > 0 {
      var size := i - p;
      Periodic(f, x, p, i, m - 1);
      assert i + m * size == (i + (m - 1) * size) + size;
      IterateAdd(f, x, i + (m - 1) * size, size);
      IterateAdd(f, x, p, size);
    }
  }

  /** The skip is exact: after the repetition at `i`, the steps left over
      once whole loops are removed lead to the value after `n` steps. */
  lemma {:induction false} SkipAhead<T>(f: T -> T, x: T, p: nat, i: nat, n: nat)
    requires p < i <= n && Iterate(f, x, p) == Iterate(f, x, i)
    ensures Iterate(f, Iterate(f, x, i), (n - i) % (i - p)) == Iterate(f, x, n)
  {
    var size := i - p;
    var q, rest := (n - i) / size, (n - i) % size;
    Periodic(f, x, p, i, q);
    assert n == (i + q * size) + rest;
    IterateAdd(f, x, i + q * size, rest);
    IterateAdd(f, x, i, rest);
    IterateAdd(f, x, i, rest);
  }

  /** Every value in `seen` was reached after the number of steps it is
      recorded with, at most `i`. */
  ghost predicate Recorded<T>(f: T -> T, x: T, seen: map<T, nat>, i: nat)
  {
    forall h :: h in seen ==> 1 <= seen[h] <= i && Iterate(f, x, seen[h]) == h
  }

  lemma {:induction false} RecordedAt<T>(f: T -> T, x: T, seen: map<T, nat>, i: nat, h: T)
    requires Recorded(f, x, seen, i) && h in seen
    ensures 1 <= seen[h] <= i && Iterate(f, x, seen[h]) == h
  {
  }

  lemma {:induction false} RecordStep<T>(f: T -> T, x: T, seen: map<T, nat>, i: nat)
    requires i >= 1 && Recorded(f, x, seen, i - 1)
    ensures Recorded(f, x, seen[Iterate(f, x, i) := i], i)
  {
  }

  /** Every row of `n` symbols. */
  ghost function AllRows(n: nat): set<seq<Symbol>>
  {
    if n == 0 then {[]}
    else set row, x | row in AllRows(n - 1) && x in {Empty, Round, Cube} :: row + [x]
  }

  lemma {:induction false} InAllRows(row: seq<Symbol>)
    ensures row in AllRows(|row|)
    decreases |row|
  {
    if row != [] {
      var front, x := row[..|row| - 1], row[|row| - 1];
      InAllRows(front);
      assert x == Empty || x == Round || x == Cube;
      assert row == front + [x];
    }
  }

  /** Every platform of `rows` rows of `cols` symbols: finitely many. */
  ghost function AllPlatforms(rows: nat, cols: nat): set<Platform>
  {
    if rows == 0 then {[]}
    else set g, row | g in AllPlatforms(rows - 1, cols) && row in AllRows(cols) :: g + [row]
  }

  lemma {:induction false} InAllPlatforms(g: Platform, cols: nat)
    requires forall r :: 0 <= r < |g| ==> |g[r]| == cols
    ensures g in AllPlatforms(|g|, cols)
    decreases |g|
  {
    if g != [] {
      var front, row := g[..|g| - 1], g[|g| - 1];
      InAllPlatforms(front, cols);
      InAllRows(row);
      assert g == front + [row];
    }
  }

  /** `tilt_cycle` on the grid. */
  method SpinCycle(grid: Platform) returns (spun: Platform)
    requires Rect(grid)
    ensures spun == Spin(grid) && Rect(spun) && |spun| == |grid| && |spun[0]| == |grid[0]|
  {
    spun := TiltPlatform(grid, North);
    TiltKeepsCubes(grid, North);
    var n := spun;
    spun := TiltPlatform(n, West);
    TiltKeepsCubes(n, West);
    var w := spun;
    spun := TiltPlatform(w, South);
    TiltKeepsCubes(w, South);
    spun := TiltPlatform(spun, East);
  }

  /** The `for` loop of `part_two`: `n` more spin cycles. */
  method SpinTimes(grid: Platform, n: nat) returns (spun: Platform)
    requires Rect(grid)
    ensures spun == Iterate(Spin, grid, n)
  {
    spun := grid;
    for k := 0 to n
      invariant Rect(spun) && spun == Iterate(Spin, grid, k)
    {
      spun := SpinCycle(spun);
    }
  }

  /** `part_two`: spins until a platform repeats, then runs the cycles
      left over once whole loops are skipped. A repetition found only after
      the billionth cycle would make `1_000_000_000 - i` underflow: `None`. */
  method PartTwo(input: string) returns (weight: Option<nat>)
    requires Parse(input).Some?
    ensures weight.Some? ==> weight.value == Weight(Iterate(Spin, Parse(input).value, CYCLES))
  {
    var grid := SpinUntil(Parse(input).value, CYCLES);
    weight := if grid.Some? then Some(Weight(grid.value)) else None;
  }

  /** The loop of `part_two`, towards `total` cycles. */
  method SpinUntil(start: Platform, total: nat) returns (result: Option<Platform>)
    requires Rect(start)
    ensures result.Some? ==> result.value == Iterate(Spin, start, total)
  {
    var grid := start;
    var seen: map<Platform, nat> := map[];
    var i: nat := 0;
    ghost var all := AllPlatforms(|start|, |start[0]|);
    while true
      invariant Rect(grid) && |grid| == |start| && |grid[0]| == |start[0]|
      invariant grid == Iterate(Spin, start, i)
      invariant Recorded(Spin, start, seen, i)
      invariant seen.Keys <= all
      decreases |all - seen.Keys|
    {
      ghost var before := grid;
      grid := SpinCycle(grid);
      i := i + 1;
      assert grid == Spin(before);
      assert grid == Iterate(Spin, start, i);
      if grid in seen {
        var prev := seen[grid];
        RecordedAt(Spin, start, seen, i - 1, grid);
        var loopSize := i - prev;
        if i > total {
          return None;
        }
        assert Iterate(Spin, start, prev) == Iterate(Spin, start, i);
        SkipAhead(Spin, start, prev, i, total);
        var remaining := (total - i) % loopSize;
        grid := SpinTimes(grid, remaining);
        result := Some(grid);
        return;
      }
      InAllPlatforms(grid, |start[0]|);
      assert grid in all - seen.Keys;
      assert all - (seen.Keys + {grid}) < all - seen.Keys;
      RecordStep(Spin, start, seen, i);
      seen := seen[grid := i];
    }
  }
}
