/** Day 13: patterns of ash and rocks, and the lines they mirror across. */
module Day13 {
  import opened Common
  import opened Grids

  datatype Symbol = Ash | Rocks

  /** `Symbol::from_char`; any other character is a panic, `None`. */
  function FromChar(c: char): (r: Option<Symbol>)
    ensures r.Some? <==> c == '.' || c == '#'
  {
    if c == '.' then Some(Ash) else if c == '#' then Some(Rocks) else None
  }

  function ToChar(s: Symbol): char
  {
    if s == Ash then '.' else '#'
  }

  lemma {:induction false} CharRoundTrip(s: Symbol)
    ensures FromChar(ToChar(s)) == Some(s)
  {
  }

  /** A pattern, row by row. */
  type Grid = seq<seq<Symbol>>

  function Cols(g: Grid): nat
  {
    if g == [] then 0 else |g[0]|
  }

  /** `Grid::get`: the symbol at a row and column, `None` off the grid. */
  function Get(g: Grid, r: nat, c: nat): Option<Symbol>
  {
    if r < |g| && c < |g[r]| then Some(g[r][c]) else None
  }

  /** A vertical line runs down the rows, so a vertical check walks the
      rows (`primary`) and, in each, the columns (`secondary`); a horizontal
      check swaps the two. */
  function Cell(g: Grid, vertical: bool, primary: nat, secondary: nat): Option<Symbol>
  {
    if vertical then Get(g, primary, secondary) else Get(g, secondary, primary)
  }

  function PrimaryDim(g: Grid, vertical: bool): nat
  {
    if vertical then |g| else Cols(g)
  }

  function SecondaryDim(g: Grid, vertical: bool): nat
  {
    if vertical then Cols(g) else |g|
  }

  /** The position mirroring `s` across the line after position `m`. */
  function Mapped(m: nat, s: nat): (t: nat)
    requires s <= m
    ensures t > m && t - m == m + 1 - s
  {
    (m - s) + m + 1
  }

  /** The pair at `s` and its mirror image differ, the image being on the
      grid. */
  predicate Differs(g: Grid, vertical: bool, m: nat, p: nat, s: nat)
    requires s <= m
  {
    var image := Cell(g, vertical, p, Mapped(m, s));
    image.Some? && Cell(g, vertical, p, s) != image
  }

  /** The differing pairs in line `p`, among the first `n` positions. */
  function RowDiffs(g: Grid, vertical: bool, m: nat, p: nat, n: nat): (d: nat)
    requires n <= m + 1
    ensures d <= n
  {
    if n == 0 then 0 else RowDiffs(g, vertical, m, p, n - 1) + (if Differs(g, vertical, m, p, n - 1) then 1 else 0)
  }

  /** The differing pairs in the first `n` lines. */
  function Diffs(g: Grid, vertical: bool, m: nat, n: nat): nat
  {
    if n == 0 then 0 else Diffs(g, vertical, m, n - 1) + RowDiffs(g, vertical, m, n - 1, m + 1)
  }

  /** The differing pairs across the line after `m`. */
  function MirrorDiffs(g: Grid, vertical: bool, m: nat): nat
  {
    Diffs(g, vertical, m, PrimaryDim(g, vertical))
  }

  /** The line after `m` is a reflection: no pair differs, or, when a smudge
      is allowed, exactly one pair does. */
  predicate Reflects(g: Grid, vertical: bool, m: nat, smudge: bool)
  {
    if smudge then MirrorDiffs(g, vertical, m) == 1 else MirrorDiffs(g, vertical, m) == 0
  }

  /** Every pair whose image is on the grid holds equal symbols. */
  ghost predicate Mirrors(g: Grid, vertical: bool, m: nat)
  {
    forall p: nat, s: nat :: p < PrimaryDim(g, vertical) && s <= m ==> !Differs(g, vertical, m, p, s)
  }

  lemma {:induction false} RowDiffsZero(g: Grid, vertical: bool, m: nat, p: nat, n: nat)
    requires n <= m + 1
    ensures RowDiffs(g, vertical, m, p, n) == 0 <==> forall s: nat :: s < n ==> !Differs(g, vertical, m, p, s)
  {
    if n > 0 {
      RowDiffsZero(g, vertical, m, p, n - 1);
    }
  }

  lemma {:induction false} DiffsZero(g: Grid, vertical: bool, m: nat, n: nat)
    ensures Diffs(g, vertical, m, n) == 0 <==> forall p: nat, s: nat :: p < n && s <= m ==> !Differs(g, vertical, m, p, s)
  {
    if n > 0 {
      DiffsZero(g, vertical, m, n - 1);
      RowDiffsZero(g, vertical, m, n - 1, m + 1);
    }
  }

  /** Without a smudge, a line reflects exactly when every mirrored pair on
      the grid is equal. */
  lemma {:induction false} ReflectsIsMirrors(g: Grid, vertical: bool, m: nat)
    ensures Reflects(g, vertical, m, false) <==> Mirrors(g, vertical, m)
  {
    DiffsZero(g, vertical, m, PrimaryDim(g, vertical));
  }

  lemma {:induction false} RowDiffsMono(g: Grid, vertical: bool, m: nat, p: nat, a: nat, b: nat)
    requires a <= b <= m + 1
    ensures RowDiffs(g, vertical, m, p, a) <= RowDiffs(g, vertical, m, p, b)
    decreases b
  {
    if a < b {
      RowDiffsMono(g, vertical, m, p, a, b - 1);
    }
  }

  lemma {:induction false} DiffsMono(g: Grid, vertical: bool, m: nat, a: nat, b: nat)
    requires a <= b
    ensures Diffs(g, vertical, m, a) <= Diffs(g, vertical, m, b)
    decreases b
  {
    if a < b {
      DiffsMono(g, vertical, m, a, b - 1);
    }
  }

  /** The pairs the loop has looked at before reaching position `s` of line
      `p` never hold more differences than the whole mirror. */
  lemma {:induction false} SeenBound(g: Grid, vertical: bool, m: nat, p: nat, s: nat)
    requires p < PrimaryDim(g, vertical) && s <= m + 1
    ensures Diffs(g, vertical, m, p) + RowDiffs(g, vertical, m, p, s) <= MirrorDiffs(g, vertical, m)
  {
    RowDiffsMono(g, vertical, m, p, s, m + 1);
    DiffsMono(g, vertical, m, p + 1, PrimaryDim(g, vertical));
  }

  /** The pattern with rows and columns swapped. */
  function Transpose(g: Grid): (t: Grid)
    requires Rect(g)
    ensures |t| == |g[0]| && forall c :: 0 <= c < |t| ==> |t[c]| == |g|
  {
    seq(|g[0]|, c requires 0 <= c < |g[0]| => seq(|g|, r requires 0 <= r < |g| => g[r][c]))
  }

  lemma {:induction false} TransposeCells(g: Grid, p: nat, s: nat)
    requires Rect(g)
    ensures Cell(g, false, p, s) == Cell(Transpose(g), true, p, s)
  {
  }

  lemma {:induction false} TransposeRowDiffs(g: Grid, m: nat, p: nat, n: nat)
    requires Rect(g) && n <= m + 1
    ensures RowDiffs(g, false, m, p, n) == RowDiffs(Transpose(g), true, m, p, n)
  {
    if n > 0 {
      TransposeRowDiffs(g, m, p, n - 1);
      TransposeCells(g, p, n - 1);
      TransposeCells(g, p, Mapped(m, n - 1));
    }
  }

  lemma {:induction false} TransposeDiffs(g: Grid, m: nat, n: nat)
    requires Rect(g)
    ensures Diffs(g, false, m, n) == Diffs(Transpose(g), true, m, n)
  {
    if n > 0 {
      TransposeDiffs(g, m, n - 1);
      TransposeRowDiffs(g, m, n - 1, m + 1);
    }
  }

  /** A horizontal line is checked as the vertical line of the transposed
      pattern. */
  lemma {:induction false} HorizontalIsTransposed(g: Grid, m: nat, smudge: bool)
    requires Rect(g)
    ensures Reflects(g, false, m, smudge) == Reflects(Transpose(g), true, m, smudge)
  {
    TransposeDiffs(g, m, Cols(g));
  }

  /** `check_mirror`: walks every pair once and gives up at the first
      difference, or at the second one when a smudge is allowed. */
  method CheckMirror(g: Grid, m: nat, vertical: bool, allowSmudge: bool) returns (ok: bool)
    requires Rect(g) && m < SecondaryDim(g, vertical)
    ensures ok == Reflects(g, vertical, m, allowSmudge)
  {
    var bound := if allowSmudge then 1 else 0;
    var hasSmudge := false;
    ghost var seen := 0;
    var primaryDim := if vertical then |g| else |g[0]|;
    for primary := 0 to primaryDim
      invariant seen == Diffs(g, vertical, m, primary)
      invariant seen <= bound && (hasSmudge <==> seen == 1)
    {
      for secondary := 0 to m + 1
        invariant seen == Diffs(g, vertical, m, primary) + RowDiffs(g, vertical, m, primary, secondary)
        invariant seen <= bound && (hasSmudge <==> seen == 1)
      {
        var image := Mapped(m, secondary);
        var original, mapped;
        if vertical {
          original, mapped := Get(g, primary, secondary).value, Get(g, primary, image);
        } else {
          original, mapped := Get(g, secondary, primary).value, Get(g, image, primary);
        }
        assert (mapped.Some? && original != mapped.value) == Differs(g, vertical, m, primary, secondary);
        if mapped.Some? && original != mapped.value {
          seen := seen + 1;
          if !allowSmudge || hasSmudge {
            SeenBound(g, vertical, m, primary, secondary + 1);
            return false;
          }
          hasSmudge := true;
        }
      }
    }
    return allowSmudge == hasSmudge;
  }
}
