/** Day 11: reading the image, the sum of the distances over every pair of
    galaxies (`shortest_pairs`), and the two parts. */
module Day11Pairs {
  import opened Common
  import opened Grids
  import opened Day11
  import opened Day11Galaxies

  /** `abs_diff` on both axes: the Manhattan distance. */
  function Dist(p: Coord, q: Coord): int
  {
    Abs(p.0 - q.0) + Abs(p.1 - q.1)
  }

  /** The sum of `d` from `x` to each of `ys`. */
  function SumFrom(x: Coord, ys: seq<Coord>, d: (Coord, Coord) -> int): int
  {
    if ys == [] then 0 else d(x, ys[0]) + SumFrom(x, ys[1..], d)
  }

  /** The sum of `d` over the pairs of positions `i < j`. */
  function PairSum(s: seq<Coord>, d: (Coord, Coord) -> int): int
  {
    if s == [] then 0 else SumFrom(s[0], s[1..], d) + PairSum(s[1..], d)
  }

  /** The sum of `d` over every `x` of `xs` and `y` of `ys`. */
  function Table(xs: seq<Coord>, ys: seq<Coord>, d: (Coord, Coord) -> int): int
  {
    if xs == [] then 0 else SumFrom(xs[0], ys, d) + Table(xs[1..], ys, d)
  }

  ghost predicate Symmetric(d: (Coord, Coord) -> int)
  {
    forall p: Coord, q: Coord :: d(p, q) == d(q, p)
  }

  lemma {:induction false} TableCons(xs: seq<Coord>, y: Coord, ys: seq<Coord>, d: (Coord, Coord) -> int)
    requires Symmetric(d)
    ensures Table(xs, [y] + ys, d) == SumFrom(y, xs, d) + Table(xs, ys, d)
    decreases |xs|
  {
    if xs != [] {
      TableCons(xs[1..], y, ys, d);
      assert ([y] + ys)[1..] == ys;
      assert d(xs[0], y) == d(y, xs[0]);
    }
  }

  /** Every unordered pair is counted once: the sum over the whole table,
      where each pair shows up in both orders and every point meets itself
      at distance zero, is twice the pair sum. */
  lemma {:induction false} EachPairOnce(s: seq<Coord>, d: (Coord, Coord) -> int)
    requires Symmetric(d) && forall p: Coord :: d(p, p) == 0
    ensures Table(s, s, d) == 2 * PairSum(s, d)
    decreases |s|
  {
    if s != [] {
      var x, t := s[0], s[1..];
      assert s == [x] + t;
      EachPairOnce(t, d);
      TableCons(t, x, t, d);
      assert SumFrom(x, s, d) == d(x, x) + SumFrom(x, t, d);
    }
  }

  lemma DistSymmetric()
    ensures Symmetric(Dist) && forall p: Coord :: Dist(p, p) == 0
  {
  }

  /** The nested loop of `shortest_pairs`. */
  method ShortestPairs(stars: seq<Coord>) returns (total: nat)
    ensures total == PairSum(stars, Dist)
  {
    total := 0;
    for i := 0 to |stars|
      invariant total + PairSum(stars[i..], Dist) == PairSum(stars, Dist)
    {
      var x := stars[i];
      assert stars[i..][1..] == stars[i + 1..];
      for j := i + 1 to |stars|
        invariant total + SumFrom(x, stars[j..], Dist) + PairSum(stars[i + 1..], Dist) == PairSum(stars, Dist)
      {
        assert stars[j..][1..] == stars[j + 1..];
        total := total + Dist(x, stars[j]);
      }
    }
  }

  /** The empty rows and columns between two galaxies. */
  function Gap(g: Image, p: Coord, q: Coord): int
  {
    if Rect(g) && p.0 < |g| && q.0 < |g| && p.1 < |g[0]| && q.1 < |g[0]| then
      EmptyBetween(RowFlags(g), p.0, q.0) + EmptyBetween(ColFlags(g), p.1, q.1)
    else 0
  }

  function GapOf(g: Image): (Coord, Coord) -> int
  {
    (p, q) => Gap(g, p, q)
  }

  /** A galaxy's row and column are not empty. */
  lemma {:induction false} OnGalaxy(g: Image, p: Coord)
    requires Rect(g) && p.0 < |g| && p.1 < |g[0]| && g[p.0][p.1]
    ensures !RowFlags(g)[p.0] && !ColFlags(g)[p.1]
  {
    assert !RowClear(g, p.0, |g[p.0]|);
    assert !ColClear(g, p.1, |g|);
  }

  /** Two galaxies end up apart by their first distance plus `factor - 1`
      for every empty row and column between them. */
  lemma {:induction false} MovedDist(g: Image, factor: nat, p: Coord, q: Coord)
    requires Rect(g) && factor >= 1
    requires p.0 < |g| && p.1 < |g[0]| && g[p.0][p.1]
    requires q.0 < |g| && q.1 < |g[0]| && g[q.0][q.1]
    ensures var rows, cols := Offsets(RowFlags(g), factor), Offsets(ColFlags(g), factor);
      Dist(Move(p, rows, cols), Move(q, rows, cols)) == Dist(p, q) + (factor - 1) * Gap(g, p, q)
  {
    var f: int := factor - 1;
    var rf, cf := RowFlags(g), ColFlags(g);
    var rows, cols := Offsets(rf, factor), Offsets(cf, factor);
    var x, y := EmptyBetween(rf, p.0, q.0), EmptyBetween(cf, p.1, q.1);
    OnGalaxy(g, p);
    OnGalaxy(g, q);
    var pr: int, qr: int := p.0 + rows[p.0], q.0 + rows[q.0];
    var pc: int, qc: int := p.1 + cols[p.1], q.1 + cols[q.1];
    assert Abs(pr - qr) == Abs(p.0 - q.0) + f * x by {
      AxisDistance(rf, factor, p.0, q.0);
    }
    assert Abs(pc - qc) == Abs(p.1 - q.1) + f * y by {
      AxisDistance(cf, factor, p.1, q.1);
    }
    assert Dist(Move(p, rows, cols), Move(q, rows, cols)) == Abs(pr - qr) + Abs(pc - qc);
    Scale(f, x, y);
  }

  /** `GapOf(g)` times `k`. */
  function ScaledGap(g: Image, k: int): (Coord, Coord) -> int
  {
    (p, q) => k * Gap(g, p, q)
  }

  lemma {:induction false} SumFromScaled(g: Image, k: int, x: Coord, ys: seq<Coord>)
    ensures SumFrom(x, ys, ScaledGap(g, k)) == k * SumFrom(x, ys, GapOf(g))
    decreases |ys|
  {
    if ys != [] {
      SumFromScaled(g, k, x, ys[1..]);
      Scale(k, Gap(g, x, ys[0]), SumFrom(x, ys[1..], GapOf(g)));
    }
  }

  lemma {:induction false} PairSumScaled(g: Image, k: int, t: seq<Coord>)
    ensures PairSum(t, ScaledGap(g, k)) == k * PairSum(t, GapOf(g))
    decreases |t|
  {
    if t != [] {
      PairSumScaled(g, k, t[1..]);
      SumFromScaled(g, k, t[0], t[1..]);
      Scale(k, SumFrom(t[0], t[1..], GapOf(g)), PairSum(t[1..], GapOf(g)));
    }
  }

  /** Moving the points of `s` adds `e` to the distance of every pair. */
  ghost predicate Stretched(s: seq<Coord>, rows: seq<nat>, cols: seq<nat>, e: (Coord, Coord) -> int)
  {
    (forall p :: p in s ==> p.0 < |rows| && p.1 < |cols|)
    && forall p, q :: p in s && q in s ==> Dist(Move(p, rows, cols), Move(q, rows, cols)) == Dist(p, q) + e(p, q)
  }

  lemma {:induction false} GalaxiesStretched(g: Image, factor: nat)
    requires Rect(g) && factor >= 1
    ensures Stretched(Galaxies(g, |g|), Offsets(RowFlags(g), factor), Offsets(ColFlags(g), factor), ScaledGap(g, factor - 1))
  {
    var s := Galaxies(g, |g|);
    forall p, q | p in s && q in s
      ensures Dist(Move(p, Offsets(RowFlags(g), factor), Offsets(ColFlags(g), factor)),
                   Move(q, Offsets(RowFlags(g), factor), Offsets(ColFlags(g), factor)))
        == Dist(p, q) + ScaledGap(g, factor - 1)(p, q)
    {
      MovedDist(g, factor, p, q);
    }
  }

  lemma {:induction false} StretchedSumFrom(s: seq<Coord>, rows: seq<nat>, cols: seq<nat>, e: (Coord, Coord) -> int,
                                            x: Coord, ys: seq<Coord>)
    requires Stretched(s, rows, cols, e) && x in s && forall p :: p in ys ==> p in s
    ensures SumFrom(Move(x, rows, cols), Moved(ys, rows, cols), Dist) == SumFrom(x, ys, Dist) + SumFrom(x, ys, e)
    decreases |ys|
  {
    if ys != [] {
      assert ys[0] in ys;
      StretchedSumFrom(s, rows, cols, e, x, ys[1..]);
      var m := Moved(ys, rows, cols);
      assert m[1..] == Moved(ys[1..], rows, cols);
    }
  }

  lemma {:induction false} StretchedPairs(s: seq<Coord>, rows: seq<nat>, cols: seq<nat>, e: (Coord, Coord) -> int,
                                          t: seq<Coord>)
    requires Stretched(s, rows, cols, e) && forall p :: p in t ==> p in s
    ensures PairSum(Moved(t, rows, cols), Dist) == PairSum(t, Dist) + PairSum(t, e)
    decreases |t|
  {
    if t != [] {
      assert t[0] in t;
      StretchedPairs(s, rows, cols, e, t[1..]);
      StretchedSumFrom(s, rows, cols, e, t[0], t[1..]);
      var m := Moved(t, rows, cols);
      assert m[1..] == Moved(t[1..], rows, cols);
    }
  }

  /** The answer for a factor: the pair sum over the expanded galaxies. */
  function Answer(g: Image, factor: nat): int
    requires Rect(g) && factor >= 1
  {
    PairSum(Expanded(g, factor), Dist)
  }

  /** The pair sum after expanding is the first one plus `factor - 1` for
      every empty line between every pair. */
  lemma {:induction false} AnswerSplit(g: Image, factor: nat)
    requires Rect(g) && factor >= 1
    ensures var s := Galaxies(g, |g|);
      Answer(g, factor) == PairSum(s, Dist) + (factor - 1) * PairSum(s, GapOf(g))
  {
    var s := Galaxies(g, |g|);
    GalaxiesStretched(g, factor);
    StretchedPairs(s, Offsets(RowFlags(g), factor), Offsets(ColFlags(g), factor), ScaledGap(g, factor - 1), s);
    PairSumScaled(g, factor - 1, s);
  }

  /** The answer grows by the same amount for every step of the factor. */
  lemma {:induction false} AnswerLinear(g: Image, factor: nat)
    requires Rect(g) && factor >= 1
    ensures Answer(g, factor) == Answer(g, 1) + (factor - 1) * (Answer(g, 2) - Answer(g, 1))
  {
    var s := Galaxies(g, |g|);
    var base, gaps := PairSum(s, Dist), PairSum(s, GapOf(g));
    assert Answer(g, 1) == base by {
      AnswerSplit(g, 1);
    }
    assert Answer(g, 2) == base + gaps by {
      AnswerSplit(g, 2);
    }
    assert Answer(g, factor) == base + (factor - 1) * gaps by {
      AnswerSplit(g, factor);
    }
    Affine(Answer(g, factor), Answer(g, 1), Answer(g, 2), base, gaps, factor - 1);
  }
  lemma Affine(a: int, one: int, two: int, base: int, gaps: int, k: int)
    requires a == base + k * gaps && one == base + 0 * gaps && two == base + 1 * gaps
    ensures a == one + k * (two - one)
  {
  }

  /** The three answers the example expects agree with one another: from
      374 at factor 2 and 1030 at factor 10 follows 8410 at factor 100. */
  lemma {:induction false} ExampleAnswers(g: Image)
    requires Rect(g) && Answer(g, 2) == 374 && Answer(g, 10) == 1030
    ensures Answer(g, 1) == 292 && Answer(g, 100) == 8410
  {
    AnswerLinear(g, 10);
    AnswerLinear(g, 100);
  }

  /** `expand` gets through both scans. */
  predicate Fits(g: Image, factor: nat)
    requires Rect(g)
  {
    Scanned(ColFlags(g), factor).Some? && Scanned(RowFlags(g), factor).Some?
  }

  /** `part_one`: a factor of two. A panic is `None`. */
  method PartOne(input: string) returns (answer: Option<nat>)
    ensures answer.Some? <==> Parse(input).Some? && Fits(Parse(input).value, 2)
    ensures answer.Some? ==> answer.value == Answer(Parse(input).value, 2)
  {
    var grid := ParseInput(input);
    if grid.None? {
      return None;
    }
    var stars := Expand(grid.value, 2);
    if stars.None? {
      return None;
    }
    var total := ShortestPairs(stars.value);
    answer := Some(total);
  }

  /** `part_two`: a factor of one million. */
  method PartTwo(input: string) returns (answer: Option<nat>)
    ensures answer.Some? <==> Parse(input).Some? && Fits(Parse(input).value, 1000000)
    ensures answer.Some? ==> answer.value == Answer(Parse(input).value, 1000000)
  {
    var grid := ParseInput(input);
    if grid.None? {
      return None;
    }
    var stars := Expand(grid.value, 1000000);
    if stars.None? {
      return None;
    }
    var total := ShortestPairs(stars.value);
    answer := Some(total);
  }
}
