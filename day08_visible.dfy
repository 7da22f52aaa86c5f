/** Day 8, part one: which trees the four families of walks see, described
    directly on the forest, and the counting loop of `part_one`. */
module Day08Visible {
  import opened Common
  import opened Day08

  /** Every tree left of `(r, c)` in its row is lower. */
  predicate LowerLeft(g: Forest, r: int, c: int)
    requires Wide(g) && Inside(|g|, r, c)
  {
    forall j :: 0 <= j < c ==> g[r][j] < g[r][c]
  }

  /** Every tree right of `(r, c)`, up to column `|g| - 1`, is lower. */
  predicate LowerRight(g: Forest, r: int, c: int)
    requires Wide(g) && Inside(|g|, r, c)
  {
    forall j :: c < j < |g| ==> g[r][j] < g[r][c]
  }

  /** Every tree in an earlier row of column `c` is lower. */
  predicate LowerAbove(g: Forest, r: int, c: int)
    requires Wide(g) && Inside(|g|, r, c)
  {
    forall i :: 0 <= i < r ==> g[i][c] < g[r][c]
  }

  /** Every tree in a later row of column `c` is lower. */
  predicate LowerBelow(g: Forest, r: int, c: int)
    requires Wide(g) && Inside(|g|, r, c)
  {
    forall i :: r < i < |g| ==> g[i][c] < g[r][c]
  }

  /** The puzzle's notion of a visible tree: lower trees all the way to
      some edge. */
  predicate VisibleFromEdge(g: Forest, r: int, c: int)
    requires Wide(g) && Inside(|g|, r, c)
  {
    LowerLeft(g, r, c) || LowerRight(g, r, c) || LowerAbove(g, r, c) || LowerBelow(g, r, c)
  }

  lemma {:induction false} TallerPrefix(g: Forest, cells: seq<Cell>, k: nat, j: nat)
    requires Wide(g) && OnGrid(g, cells) && j < k <= |cells|
    ensures OnGrid(g, cells[..k])
    ensures Taller(g, cells[..k], j) <==> Taller(g, cells, j)
  {
    forall i | 0 <= i <= j
      ensures cells[..k][i] == cells[i]
    {
    }
  }

  /** A cell seen along a walk is on it, taller than every cell before it. */
  lemma {:induction false} SeenAt(g: Forest, cells: seq<Cell>, p: Cell) returns (j: nat)
    requires Wide(g) && OnGrid(g, cells) && p in Seen(g, cells)
    ensures j < |cells| && cells[j] == p && Taller(g, cells, j)
    decreases |cells|
  {
    var k := |cells| - 1;
    var front := cells[..k];
    if p in Seen(g, front) {
      j := SeenAt(g, front, p);
      TallerPrefix(g, cells, k, j);
    } else {
      j := k;
    }
  }

  /** A cell of a walk taller than every cell before it is seen. */
  lemma {:induction false} TallerSeen(g: Forest, cells: seq<Cell>, j: nat)
    requires Wide(g) && OnGrid(g, cells) && j < |cells| && Taller(g, cells, j)
    ensures cells[j] in Seen(g, cells)
    decreases |cells|
  {
    var k := |cells| - 1;
    if j < k {
      TallerPrefix(g, cells, k, j);
      TallerSeen(g, cells[..k], j);
    }
  }

  /** A cell is seen along a walk exactly when it appears on the walk
      taller than every cell before it. */
  lemma {:induction false} InSeen(g: Forest, cells: seq<Cell>, p: Cell)
    requires Wide(g) && OnGrid(g, cells)
    ensures p in Seen(g, cells) <==> exists j :: 0 <= j < |cells| && cells[j] == p && Taller(g, cells, j)
  {
    if p in Seen(g, cells) {
      var j := SeenAt(g, cells, p);
    }
    if exists j :: 0 <= j < |cells| && cells[j] == p && Taller(g, cells, j) {
      var j :| 0 <= j < |cells| && cells[j] == p && Taller(g, cells, j);
      TallerSeen(g, cells, j);
    }
  }

  /** The walk along row `r` from the left reaches column `j` after `j` steps. */
  lemma LeftAt(g: Forest, r: int, j: int)
    requires Wide(g) && 0 <= r < |g| && 0 <= j < |g|
    ensures Walk(|g|, r, 0, 0, 1)[j] == (r, j)
  {
    WalkAt(|g|, r, 0, 0, 1, j);
  }

  /** The walk along row `r` from the left sees the trees lower to their left. */
  lemma {:induction false} SeenFromLeft(g: Forest, r: int, p: Cell)
    requires Wide(g) && 0 <= r < |g|
    ensures p in Seen(g, Walk(|g|, r, 0, 0, 1)) <==> p.0 == r && 0 <= p.1 < |g| && LowerLeft(g, r, p.1)
  {
    var n := |g|;
    var w := Walk(n, r, 0, 0, 1);
    if p in Seen(g, w) {
      var j := SeenAt(g, w, p);
      LeftAt(g, r, j);
      forall c | 0 <= c < j
        ensures g[r][c] < g[r][j]
      {
        LeftAt(g, r, c);
      }
    }
    if p.0 == r && 0 <= p.1 < n && LowerLeft(g, r, p.1) {
      var j := p.1;
      LeftAt(g, r, j);
      forall i | 0 <= i < j
        ensures Height(g, w[i]) < Height(g, w[j])
      {
        LeftAt(g, r, i);
      }
      TallerSeen(g, w, j);
    }
  }

  /** The walk along row `r` from the right reaches column `|g| - 1 - j`
      after `j` steps. */
  lemma {:induction false} RightAt(g: Forest, r: int)
    requires Wide(g) && 0 <= r < |g|
    ensures var w := Walk(|g|, r, |g| - 1, 0, -1);
      |w| == |g| && forall j :: 0 <= j < |w| ==> w[j] == (r, |g| - 1 - j)
  {
    var w := Walk(|g|, r, |g| - 1, 0, -1);
    forall j | 0 <= j < |w|
      ensures w[j] == (r, |g| - 1 - j)
    {
      WalkAt(|g|, r, |g| - 1, 0, -1, j);
    }
  }

  /** Along cells running right to left through row `r`, a tree taller
      than all before it is lower-right-visible. */
  lemma {:induction false} RightTallerLower(g: Forest, r: int, w: seq<Cell>, j: nat)
    requires Wide(g) && 0 <= r < |g| && |w| == |g| && OnGrid(g, w) && j < |w|
    requires forall i :: 0 <= i < |w| ==> w[i] == (r, |g| - 1 - i)
    requires Taller(g, w, j)
    ensures LowerRight(g, r, |g| - 1 - j)
  {
    var n := |g|;
    var c0 := n - 1 - j;
    forall c | c0 < c < n
      ensures g[r][c] < g[r][c0]
    {
      var i := n - 1 - c;
      assert w[i] == (r, c);
      assert Height(g, w[i]) < Height(g, w[j]);
    }
  }

  lemma {:induction false} RightSeenLower(g: Forest, r: int, p: Cell)
    requires Wide(g) && 0 <= r < |g|
    ensures p in Seen(g, Walk(|g|, r, |g| - 1, 0, -1)) ==> p.0 == r && 0 <= p.1 < |g| && LowerRight(g, r, p.1)
  {
    var n := |g|;
    var w := Walk(n, r, n - 1, 0, -1);
    if p in Seen(g, w) {
      var j := SeenAt(g, w, p);
      RightAt(g, r);
      RightTallerLower(g, r, w, j);
    }
  }

  lemma {:induction false} RightLowerTaller(g: Forest, r: int, w: seq<Cell>, j: nat)
    requires Wide(g) && 0 <= r < |g| && |w| == |g| && OnGrid(g, w) && j < |w|
    requires forall i :: 0 <= i < |w| ==> w[i] == (r, |g| - 1 - i)
    requires LowerRight(g, r, |g| - 1 - j)
    ensures Taller(g, w, j)
  {
    forall i | 0 <= i < j
      ensures Height(g, w[i]) < Height(g, w[j])
    {
      assert w[i] == (r, |g| - 1 - i);
    }
  }

  lemma {:induction false} RightLowerSeen(g: Forest, r: int, p: Cell)
    requires Wide(g) && 0 <= r < |g|
    ensures p.0 == r && 0 <= p.1 < |g| && LowerRight(g, r, p.1) ==> p in Seen(g, Walk(|g|, r, |g| - 1, 0, -1))
  {
    var n := |g|;
    var w := Walk(n, r, n - 1, 0, -1);
    if p.0 == r && 0 <= p.1 < n && LowerRight(g, r, p.1) {
      var j := n - 1 - p.1;
      RightAt(g, r);
      RightLowerTaller(g, r, w, j);
      assert w[j] == p;
      TallerSeen(g, w, j);
    }
  }

  /** The walk along row `r` from the right sees the trees lower to their right. */
  lemma {:induction false} SeenFromRight(g: Forest, r: int, p: Cell)
    requires Wide(g) && 0 <= r < |g|
    ensures p in Seen(g, Walk(|g|, r, |g| - 1, 0, -1)) <==> p.0 == r && 0 <= p.1 < |g| && LowerRight(g, r, p.1)
  {
    RightSeenLower(g, r, p);
    RightLowerSeen(g, r, p);
  }

  /** The walk down column `c` from the top reaches row `j` after `j` steps. */
  lemma AboveAt(g: Forest, c: int, j: int)
    requires Wide(g) && 0 <= c < |g| && 0 <= j < |g|
    ensures Walk(|g|, 0, c, 1, 0)[j] == (j, c)
  {
    WalkAt(|g|, 0, c, 1, 0, j);
  }

  /** The walk down column `c` from the top sees the trees lower above them. */
  lemma {:induction false} SeenFromAbove(g: Forest, c: int, p: Cell)
    requires Wide(g) && 0 <= c < |g|
    ensures p in Seen(g, Walk(|g|, 0, c, 1, 0)) <==> p.1 == c && 0 <= p.0 < |g| && LowerAbove(g, p.0, c)
  {
    var n := |g|;
    var w := Walk(n, 0, c, 1, 0);
    if p in Seen(g, w) {
      var j := SeenAt(g, w, p);
      AboveAt(g, c, j);
      forall r | 0 <= r < j
        ensures g[r][c] < g[j][c]
      {
        AboveAt(g, c, r);
      }
    }
    if p.1 == c && 0 <= p.0 < n && LowerAbove(g, p.0, c) {
      var j := p.0;
      AboveAt(g, c, j);
      forall i | 0 <= i < j
        ensures Height(g, w[i]) < Height(g, w[j])
      {
        AboveAt(g, c, i);
      }
      TallerSeen(g, w, j);
    }
  }

  /** The walk up column `c` from the bottom reaches row `|g| - 1 - j`
      after `j` steps. */
  lemma {:induction false} BelowAt(g: Forest, c: int)
    requires Wide(g) && 0 <= c < |g|
    ensures var w := Walk(|g|, |g| - 1, c, -1, 0);
      |w| == |g| && forall j :: 0 <= j < |w| ==> w[j] == (|g| - 1 - j, c)
  {
    var w := Walk(|g|, |g| - 1, c, -1, 0);
    forall j | 0 <= j < |w|
      ensures w[j] == (|g| - 1 - j, c)
    {
      WalkAt(|g|, |g| - 1, c, -1, 0, j);
    }
  }

  /** Along cells running bottom to top through column `c`, a tree taller
      than all before it is lower-below-visible. */
  lemma {:induction false} BelowTallerLower(g: Forest, c: int, w: seq<Cell>, j: nat)
    requires Wide(g) && 0 <= c < |g| && |w| == |g| && OnGrid(g, w) && j < |w|
    requires forall i :: 0 <= i < |w| ==> w[i] == (|g| - 1 - i, c)
    requires Taller(g, w, j)
    ensures LowerBelow(g, |g| - 1 - j, c)
  {
    var n := |g|;
    var r0 := n - 1 - j;
    forall r | r0 < r < n
      ensures g[r][c] < g[r0][c]
    {
      var i := n - 1 - r;
      assert w[i] == (r, c);
      assert Height(g, w[i]) < Height(g, w[j]);
    }
  }

  lemma {:induction false} BelowSeenLower(g: Forest, c: int, p: Cell)
    requires Wide(g) && 0 <= c < |g|
    ensures p in Seen(g, Walk(|g|, |g| - 1, c, -1, 0)) ==> p.1 == c && 0 <= p.0 < |g| && LowerBelow(g, p.0, c)
  {
    var n := |g|;
    var w := Walk(n, n - 1, c, -1, 0);
    if p in Seen(g, w) {
      var j := SeenAt(g, w, p);
      BelowAt(g, c);
      BelowTallerLower(g, c, w, j);
    }
  }

  lemma {:induction false} BelowLowerTaller(g: Forest, c: int, w: seq<Cell>, j: nat)
    requires Wide(g) && 0 <= c < |g| && |w| == |g| && OnGrid(g, w) && j < |w|
    requires forall i :: 0 <= i < |w| ==> w[i] == (|g| - 1 - i, c)
    requires LowerBelow(g, |g| - 1 - j, c)
    ensures Taller(g, w, j)
  {
    forall i | 0 <= i < j
      ensures Height(g, w[i]) < Height(g, w[j])
    {
      assert w[i] == (|g| - 1 - i, c);
    }
  }

  lemma {:induction false} BelowLowerSeen(g: Forest, c: int, p: Cell)
    requires Wide(g) && 0 <= c < |g|
    ensures p.1 == c && 0 <= p.0 < |g| && LowerBelow(g, p.0, c) ==> p in Seen(g, Walk(|g|, |g| - 1, c, -1, 0))
  {
    var n := |g|;
    var w := Walk(n, n - 1, c, -1, 0);
    if p.1 == c && 0 <= p.0 < n && LowerBelow(g, p.0, c) {
      var j := n - 1 - p.0;
      BelowAt(g, c);
      BelowLowerTaller(g, c, w, j);
      assert w[j] == p;
      TallerSeen(g, w, j);
    }
  }

  /** The walk up column `c` from the bottom sees the trees lower below them. */
  lemma {:induction false} SeenFromBelow(g: Forest, c: int, p: Cell)
    requires Wide(g) && 0 <= c < |g|
    ensures p in Seen(g, Walk(|g|, |g| - 1, c, -1, 0)) <==> p.1 == c && 0 <= p.0 < |g| && LowerBelow(g, p.0, c)
  {
    BelowSeenLower(g, c, p);
    BelowLowerSeen(g, c, p);
  }

  /** The four walks of round `t`. */
  function Round(g: Forest, t: nat): set<Cell>
    requires Wide(g) && t < |g|
  {
    var n := |g|;
    Seen(g, Walk(n, t, 0, 0, 1)) + Seen(g, Walk(n, n - 1, t, -1, 0))
      + Seen(g, Walk(n, t, n - 1, 0, -1)) + Seen(g, Walk(n, 0, t, 1, 0))
  }

  /** Lower trees all the way to the left or the right edge. */
  predicate RowSide(g: Forest, p: Cell)
    requires Wide(g) && Inside(|g|, p.0, p.1)
  {
    LowerLeft(g, p.0, p.1) || LowerRight(g, p.0, p.1)
  }

  /** Lower trees all the way to the top or the bottom edge. */
  predicate ColSide(g: Forest, p: Cell)
    requires Wide(g) && Inside(|g|, p.0, p.1)
  {
    LowerAbove(g, p.0, p.1) || LowerBelow(g, p.0, p.1)
  }

  /** Round `t` marks the trees of row `t` lower to one side and the trees
      of column `t` lower above or below. */
  lemma {:induction false} InRound(g: Forest, t: nat, p: Cell)
    requires Wide(g) && t < |g|
    ensures p in Round(g, t) <==>
      Inside(|g|, p.0, p.1) && ((p.0 == t && RowSide(g, p)) || (p.1 == t && ColSide(g, p)))
  {
    SeenFromLeft(g, t, p);
    SeenFromBelow(g, t, p);
    SeenFromRight(g, t, p);
    SeenFromAbove(g, t, p);
  }

  /** The trees the first `i` rounds mark: those of the first `i` rows lower
      to one side, and those of the first `i` columns lower above or below. */
  function Marking(g: Forest, i: nat): set<Cell>
    requires Wide(g)
  {
    set r, c | 0 <= r < |g| && 0 <= c < |g| && ((r < i && RowSide(g, (r, c))) || (c < i && ColSide(g, (r, c)))) :: (r, c)
  }

  /** Round `i` adds the trees of row `i` and column `i` it sees. */
  lemma {:induction false} MarkingStep(g: Forest, i: nat)
    requires Wide(g) && i < |g|
    ensures Marking(g, i + 1) == Marking(g, i) + Round(g, i)
  {
    forall p: Cell
      ensures p in Marking(g, i + 1) <==> p in Marking(g, i) || p in Round(g, i)
    {
      InRound(g, i, p);
    }
  }

  /** The trees visible from some edge. */
  function VisibleTrees(g: Forest): set<Cell>
    requires Wide(g)
  {
    set r, c | 0 <= r < |g| && 0 <= c < |g| && VisibleFromEdge(g, r, c) :: (r, c)
  }

  /** After a round for every row and column, the marks are the visible trees. */
  lemma {:induction false} AllRounds(g: Forest)
    requires Wide(g)
    ensures Marking(g, |g|) == VisibleTrees(g)
  {
  }

  /** Every tree on the edge of the square is visible. */
  lemma {:induction false} EdgesVisible(g: Forest, r: int, c: int)
    requires Wide(g) && Inside(|g|, r, c)
    requires r == 0 || c == 0 || r == |g| - 1 || c == |g| - 1
    ensures (r, c) in VisibleTrees(g)
  {
  }

  lemma {:induction false} NoMarks(n: nat)
    ensures Marks(seq(n, _ => seq(n, _ => false)), n)
    ensures Marked(seq(n, _ => seq(n, _ => false))) == {}
  {
  }

  /** One round of `part_one`'s loop: the four walks of row and column `i`,
      with the number of trees they newly mark. */
  method MarkRound(g: Forest, visible: seq<seq<bool>>, i: int) returns (marked: seq<seq<bool>>, found: nat)
    requires Wide(g) && Marks(visible, |g|) && 0 <= i < |g|
    ensures Marks(marked, |g|)
    ensures Marked(marked) == Marked(visible) + Round(g, i)
    ensures |Marked(marked)| == |Marked(visible)| + found
  {
    var n := |g| - 1;
    var a, b, c, d: nat;
    marked, a := MarkVisible(g, visible, i, 0, 0, 1);
    marked, b := MarkVisible(g, marked, n, i, -1, 0);
    marked, c := MarkVisible(g, marked, i, n, 0, -1);
    marked, d := MarkVisible(g, marked, 0, i, 1, 0);
    found := a + b + c + d;
  }

  /** The loop of `part_one`: the number of trees marked visible. */
  method CountVisible(g: Forest) returns (total: nat)
    requires Wide(g)
    ensures total == |VisibleTrees(g)|
  {
    var size := |g|;
    var visible := seq(size, _ => seq(size, _ => false));
    NoMarks(size);
    assert Marking(g, 0) == {};
    total := 0;
    for i := 0 to size
      invariant Marks(visible, size)
      invariant Marked(visible) == Marking(g, i)
      invariant total == |Marked(visible)|
    {
      MarkingStep(g, i);
      var found: nat;
      visible, found := MarkRound(g, visible, i);
      total := total + found;
    }
    AllRounds(g);
  }

  /** `part_one`: `None` where the source panics, on a character that is not
      a digit or on a row shorter than the number of rows. */
  method PartOne(input: string) returns (answer: Option<nat>)
    ensures answer.Some? <==> Parse(input).Some? && Wide(Parse(input).value)
    ensures answer.Some? ==> answer.value == |VisibleTrees(Parse(input).value)|
  {
    var grid := Parse(input);
    if grid.None? || !Wide(grid.value) {
      return None;
    }
    var total := CountVisible(grid.value);
    answer := Some(total);
  }
}
