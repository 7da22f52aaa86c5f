/** Day 11: the galaxies moved by `expand`, and the sum over every pair of
    their Manhattan distances. */
module Day11Galaxies {
  import opened Common
  import opened Grids
  import opened Day11

  /** The galaxies among the first `k` cells of row `r`, left to right. */
  function RowGalaxies(row: seq<bool>, r: nat, k: nat): (s: seq<Coord>)
    requires k <= |row|
    ensures forall p :: p in s ==> p.0 == r && p.1 < k && row[p.1]
  {
    if k == 0 then []
    else RowGalaxies(row, r, k - 1) + (if row[k - 1] then [(r, k - 1)] else [])
  }

  /** The galaxies of the first `k` rows, in the order `indexed_iter`
      visits the cells: row by row. */
  function Galaxies(g: Image, k: nat): (s: seq<Coord>)
    requires k <= |g|
    ensures forall p :: p in s ==> p.0 < k && p.1 < |g[p.0]| && g[p.0][p.1]
  {
    if k == 0 then []
    else Galaxies(g, k - 1) + RowGalaxies(g[k - 1], k - 1, |g[k - 1]|)
  }

  lemma {:induction false} InRowGalaxies(row: seq<bool>, r: nat, k: nat, p: Coord)
    requires k <= |row|
    ensures p in RowGalaxies(row, r, k) <==> p.0 == r && p.1 < k && row[p.1]
  {
    if k > 0 {
      InRowGalaxies(row, r, k - 1, p);
    }
  }

  /** The galaxies listed are exactly the `true` cells of the rows read. */
  lemma {:induction false} InGalaxies(g: Image, k: nat, p: Coord)
    requires k <= |g|
    ensures p in Galaxies(g, k) <==> p.0 < k && p.1 < |g[p.0]| && g[p.0][p.1]
  {
    if k > 0 && p.0 < k && p.1 < |g[p.0]| && g[p.0][p.1] {
      var front, last := Galaxies(g, k - 1), RowGalaxies(g[k - 1], k - 1, |g[k - 1]|);
      assert Galaxies(g, k) == front + last;
      if p.0 == k - 1 {
        InRowGalaxies(g[k - 1], k - 1, |g[k - 1]|, p);
        assert p in last;
      } else {
        InGalaxies(g, k - 1, p);
        assert p in front;
      }
    }
  }

  /** Where a galaxy lands: its row and column each moved by their offset. */
  function Move(p: Coord, rows: seq<nat>, cols: seq<nat>): Coord
    requires p.0 < |rows| && p.1 < |cols|
  {
    (p.0 + rows[p.0], p.1 + cols[p.1])
  }

  function Moved(s: seq<Coord>, rows: seq<nat>, cols: seq<nat>): (m: seq<Coord>)
    requires forall p :: p in s ==> p.0 < |rows| && p.1 < |cols|
    ensures |m| == |s| && forall i :: 0 <= i < |s| ==> m[i] == Move(s[i], rows, cols)
  {
    seq(|s|, i requires 0 <= i < |s| => Move(s[i], rows, cols))
  }

  lemma {:induction false} MovedSnoc(s: seq<Coord>, p: Coord, rows: seq<nat>, cols: seq<nat>)
    requires forall q :: q in s ==> q.0 < |rows| && q.1 < |cols|
    requires p.0 < |rows| && p.1 < |cols|
    ensures Moved(s + [p], rows, cols) == Moved(s, rows, cols) + [Move(p, rows, cols)]
  {
    var m, n := Moved(s + [p], rows, cols), Moved(s, rows, cols) + [Move(p, rows, cols)];
    forall i | 0 <= i < |m|
      ensures m[i] == n[i]
    {
      if i < |s| {
        assert (s + [p])[i] == s[i];
      }
    }
  }

  /** The moved points are the moves of the points. */
  lemma {:induction false} InMoved(s: seq<Coord>, rows: seq<nat>, cols: seq<nat>, q: Coord)
    requires forall p :: p in s ==> p.0 < |rows| && p.1 < |cols|
    ensures q in Moved(s, rows, cols) <==> exists p :: p in s && q == Move(p, rows, cols)
  {
    var m := Moved(s, rows, cols);
    if q in m {
      var i :| 0 <= i < |m| && m[i] == q;
      assert s[i] in s;
    }
    if exists p :: p in s && q == Move(p, rows, cols) {
      var p :| p in s && q == Move(p, rows, cols);
      var i :| 0 <= i < |s| && s[i] == p;
      assert m[i] == q;
    }
  }

  /** What `expand` returns when the scans do not overflow. */
  function Expanded(g: Image, factor: nat): seq<Coord>
    requires Rect(g) && factor >= 1
  {
    Moved(Galaxies(g, |g|), Offsets(RowFlags(g), factor), Offsets(ColFlags(g), factor))
  }

  /** A point lands in the expanded image exactly when it is where a galaxy
      moves to. */
  lemma {:induction false} InExpanded(g: Image, factor: nat, q: Coord)
    requires Rect(g) && factor >= 1
    ensures q in Expanded(g, factor) <==>
      exists p: Coord :: p.0 < |g| && p.1 < |g[0]| && g[p.0][p.1]
        && q == Move(p, Offsets(RowFlags(g), factor), Offsets(ColFlags(g), factor))
  {
    var s := Galaxies(g, |g|);
    var rows, cols := Offsets(RowFlags(g), factor), Offsets(ColFlags(g), factor);
    InMoved(s, rows, cols, q);
    if q in Expanded(g, factor) {
      var p :| p in s && q == Move(p, rows, cols);
    }
    if exists p: Coord :: p.0 < |g| && p.1 < |g[0]| && g[p.0][p.1] && q == Move(p, rows, cols) {
      var p: Coord :| p.0 < |g| && p.1 < |g[0]| && g[p.0][p.1] && q == Move(p, rows, cols);
      InGalaxies(g, |g|, p);
    }
  }

  /** With a factor of one, `expand` lists the galaxies where they are. */
  lemma {:induction false} FactorOneKeeps(g: Image)
    requires Rect(g)
    ensures Expanded(g, 1) == Galaxies(g, |g|)
  {
    var s := Galaxies(g, |g|);
    FactorOneStill(RowFlags(g));
    FactorOneStill(ColFlags(g));
    var m := Expanded(g, 1);
    forall i | 0 <= i < |s|
      ensures m[i] == s[i]
    {
      assert s[i] in s;
    }
  }

  /** The second loop of `expand`: every galaxy, row by row, moved by the
      offsets of its row and column. */
  method MapStars(g: Image, rows: seq<nat>, cols: seq<nat>) returns (stars: seq<Coord>)
    requires Rect(g) && |rows| == |g| && |cols| == |g[0]|
    ensures stars == Moved(Galaxies(g, |g|), rows, cols)
  {
    var w := |g[0]|;
    stars := [];
    ghost var seen: seq<Coord> := [];
    for r := 0 to |g|
      invariant seen == Galaxies(g, r)
      invariant forall p :: p in seen ==> p.0 < r && p.1 < w
      invariant stars == Moved(seen, rows, cols)
    {
      ghost var before := seen;
      for c := 0 to w
        invariant seen == before + RowGalaxies(g[r], r, c)
        invariant forall p :: p in seen ==> p.0 <= r && p.1 < w
        invariant stars == Moved(seen, rows, cols)
      {
        if g[r][c] {
          var p: Coord := (r, c);
          MovedSnoc(seen, p, rows, cols);
          stars := stars + [Move(p, rows, cols)];
          seen := seen + [p];
        }
      }
    }
  }

  /** `expand`: `None` where a scan underflows or overflows `u32`. */
  method Expand(g: Image, factor: nat) returns (stars: Option<seq<Coord>>)
    requires Rect(g) && factor <= U32_MAX
    ensures stars.Some? <==> Scanned(ColFlags(g), factor).Some? && Scanned(RowFlags(g), factor).Some?
    ensures stars.Some? ==> factor >= 1 && stars.value == Expanded(g, factor)
  {
    var rows, cols := EmptyLines(g);
    var emptyCols := Scan(cols, factor);
    if emptyCols.None? {
      return None;
    }
    var emptyRows := Scan(rows, factor);
    if emptyRows.None? {
      return None;
    }
    var mapped := MapStars(g, emptyRows.value, emptyCols.value);
    stars := Some(mapped);
  }
}
