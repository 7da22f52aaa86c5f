/** Day 11: galaxies in an image; every row and column without a galaxy
    grows `factor` times wider, and the galaxies move apart accordingly. */
module Day11 {
  import opened Common
  import opened Grids

  /** The image: `true` where a galaxy (`#`) is. */
  type Image = seq<seq<bool>>

  type Coord = (nat, nat)

  /** No galaxy among the first `k` cells of row `r`. */
  predicate RowClear(g: Image, r: nat, k: nat)
    requires r < |g| && k <= |g[r]|
  {
    forall c :: 0 <= c < k ==> !g[r][c]
  }

  /** No galaxy in row `r`. */
  predicate EmptyRow(g: Image, r: nat)
    requires r < |g|
  {
    RowClear(g, r, |g[r]|)
  }

  /** No galaxy in column `c` among the first `k` rows. */
  predicate ColClear(g: Image, c: nat, k: nat)
    requires Rect(g) && c < |g[0]| && k <= |g|
  {
    forall r :: 0 <= r < k ==> !g[r][c]
  }

  /** No galaxy in column `c`. */
  predicate EmptyCol(g: Image, c: nat)
    requires Rect(g) && c < |g[0]|
  {
    ColClear(g, c, |g|)
  }

  /** The number of `true` flags. */
  function Count(flags: seq<bool>): (n: nat)
    ensures n <= |flags|
  {
    if flags == [] then 0 else Count(flags[..|flags| - 1]) + (if flags[|flags| - 1] then 1 else 0)
  }

  lemma {:induction false} CountAppend(a: seq<bool>, b: seq<bool>)
    ensures Count(a + b) == Count(a) + Count(b)
    decreases |b|
  {
    if b == [] {
      assert a + b == a;
    } else {
      CountAppend(a, b[..|b| - 1]);
      assert (a + b)[..|a + b| - 1] == a + b[..|b| - 1];
    }
  }

  /** The `scan` over the flags: the running total of `factor - 1` per
      empty line, the offset of line `k` being its entry. */
  function Offsets(flags: seq<bool>, factor: nat): (o: seq<nat>)
    requires factor >= 1
    ensures |o| == |flags|
  {
    if flags == [] then []
    else
      var before := Offsets(flags[..|flags| - 1], factor);
      var last := if before == [] then 0 else before[|before| - 1];
      before + [last + (if flags[|flags| - 1] then factor - 1 else 0)]
  }

  /** The offset of line `k` is `factor - 1` for every empty line up to and
      including `k`. */
  lemma {:induction false} OffsetIsCount(flags: seq<bool>, factor: nat)
    requires factor >= 1
    ensures forall k :: 0 <= k < |flags| ==> Offsets(flags, factor)[k] == (factor - 1) * Count(flags[..k + 1])
    decreases |flags|
  {
    if flags != [] {
      var n := |flags| - 1;
      var front := flags[..n];
      OffsetIsCount(front, factor);
      var before := Offsets(front, factor);
      var o := Offsets(flags, factor);
      var f: int := factor - 1;
      assert o == before + [(if before == [] then 0 else before[n - 1]) + (if flags[n] then f else 0)];
      forall k | 0 <= k < |flags|
        ensures o[k] == f * Count(flags[..k + 1])
      {
        if k < n {
          assert o[k] == before[k];
          assert flags[..k + 1] == front[..k + 1];
        } else {
          assert flags[..k + 1] == flags;
          assert flags[..n] == front;
          var b: int := if flags[n] then 1 else 0;
          assert Count(flags) == Count(front) + b;
          if n > 0 {
            assert front[..n] == front;
            assert before[n - 1] == f * Count(front);
          }
          assert f * (Count(front) + b) == f * Count(front) + f * b;
        }
      }
    }
  }

  /** The number of `true` flags after index `i` up to index `j`. */
  lemma {:induction false} CountBetween(flags: seq<bool>, i: nat, j: nat)
    requires i <= j < |flags|
    ensures Count(flags[..j + 1]) == Count(flags[..i + 1]) + Count(flags[i + 1..j + 1])
  {
    assert flags[..j + 1] == flags[..i + 1] + flags[i + 1..j + 1];
    CountAppend(flags[..i + 1], flags[i + 1..j + 1]);
  }

  /** Expanding keeps the order along an axis, and moves two lines apart by
      `factor - 1` for each empty line after the first up to the second. */
  lemma {:induction false} ExpandedGap(flags: seq<bool>, factor: nat, i: nat, j: nat)
    requires factor >= 1 && i <= j < |flags|
    ensures var o := Offsets(flags, factor);
      o[i] <= o[j] && (j + o[j]) - (i + o[i]) == (j - i) + (factor - 1) * Count(flags[i + 1..j + 1])
  {
    var o := Offsets(flags, factor);
    OffsetAt(flags, factor, i);
    OffsetAt(flags, factor, j);
    CountBetween(flags, i, j);
    Scale(factor - 1, Count(flags[..i + 1]), Count(flags[i + 1..j + 1]));
  }

  /** One entry of `OffsetIsCount`. */
  lemma {:induction false} OffsetAt(flags: seq<bool>, factor: nat, k: nat)
    requires factor >= 1 && k < |flags|
    ensures Offsets(flags, factor)[k] == (factor - 1) * Count(flags[..k + 1])
  {
    OffsetIsCount(flags, factor);
  }

  lemma Scale(f: int, x: int, y: int)
    ensures f * (x + y) == f * x + f * y && (f >= 0 && y >= 0 ==> f * y >= 0)
  {
  }

  /** Lines further along stay further along. */
  lemma {:induction false} ExpandedOrder(flags: seq<bool>, factor: nat, i: nat, j: nat)
    requires factor >= 1 && i < j < |flags|
    ensures var o := Offsets(flags, factor); i + o[i] < j + o[j]
  {
    ExpandedGap(flags, factor, i, j);
  }

  /** With a factor of one nothing moves. */
  lemma {:induction false} FactorOneStill(flags: seq<bool>)
    ensures forall k :: 0 <= k < |flags| ==> Offsets(flags, 1)[k] == 0
  {
    OffsetIsCount(flags, 1);
  }

  /** `rows` after the first loop of `expand`: `true` for an empty row. */
  function RowFlags(g: Image): (f: seq<bool>)
    ensures |f| == |g| && forall r :: 0 <= r < |g| ==> f[r] == EmptyRow(g, r)
  {
    seq(|g|, r requires 0 <= r < |g| => EmptyRow(g, r))
  }

  /** `cols` after the first loop of `expand`: `true` for an empty column. */
  function ColFlags(g: Image): (f: seq<bool>)
    requires Rect(g)
    ensures |f| == |g[0]| && forall c :: 0 <= c < |g[0]| ==> f[c] == EmptyCol(g, c)
  {
    seq(|g[0]|, c requires 0 <= c < |g[0]| => EmptyCol(g, c))
  }

  /** The number of empty lines strictly between two lines. */
  function EmptyBetween(flags: seq<bool>, a: nat, b: nat): nat
    requires a < |flags| && b < |flags|
  {
    if a < b then Count(flags[a + 1..b]) else if b < a then Count(flags[b + 1..a]) else 0
  }

  lemma {:induction false} GapAt(flags: seq<bool>, factor: nat, a: nat, b: nat)
    requires factor >= 1 && a <= b < |flags| && !flags[b]
    ensures var o := Offsets(flags, factor);
      (b + o[b]) - (a + o[a]) == (b - a) + (factor - 1) * EmptyBetween(flags, a, b) >= 0
  {
    ExpandedGap(flags, factor, a, b);
    var span := flags[a + 1..b + 1];
    if a < b {
      assert span[..|span| - 1] == flags[a + 1..b];
      assert Count(span) == Count(flags[a + 1..b]);
    } else {
      assert span == [];
    }
  }

  /** The distance along one axis between two moved lines holding galaxies
      is their first distance plus `factor - 1` per empty line between. */
  lemma {:induction false} AxisDistance(flags: seq<bool>, factor: nat, a: nat, b: nat)
    requires factor >= 1 && a < |flags| && b < |flags| && !flags[a] && !flags[b]
    ensures var o := Offsets(flags, factor);
      Abs((a + o[a]) - (b + o[b])) == Abs(a - b) + (factor - 1) * EmptyBetween(flags, a, b)
  {
    if a <= b {
      GapAt(flags, factor, a, b);
    } else {
      GapAt(flags, factor, b, a);
    }
  }

  /** The offsets of the lines before `k` do not depend on the lines after. */
  lemma {:induction false} OffsetsPrefix(flags: seq<bool>, factor: nat, k: nat)
    requires factor >= 1 && k <= |flags|
    ensures Offsets(flags[..k], factor) == Offsets(flags, factor)[..k]
  {
    var front := flags[..k];
    OffsetIsCount(front, factor);
    OffsetIsCount(flags, factor);
    forall i | 0 <= i < k
      ensures Offsets(front, factor)[i] == Offsets(flags, factor)[i]
    {
      assert front[..i + 1] == flags[..i + 1];
    }
  }

  /** The `scan` of `expand` with its `u32` running total: `factor - 1`
      underflows for a factor of zero and the total may pass `u32::MAX`;
      either panics, `None` here. */
  function Scanned(flags: seq<bool>, factor: nat): Option<seq<nat>>
  {
    if factor == 0 then None
    else
      var o := Offsets(flags, factor);
      if o != [] && o[|o| - 1] > U32_MAX then None else Some(o)
  }

  /** A scan that does not overflow holds `u32` offsets only. */
  lemma {:induction false} ScannedFits(flags: seq<bool>, factor: nat)
    requires Scanned(flags, factor).Some?
    ensures var o := Scanned(flags, factor).value;
      o == Offsets(flags, factor) && forall k :: 0 <= k < |o| ==> o[k] <= U32_MAX
  {
    var o := Offsets(flags, factor);
    forall k | 0 <= k < |o|
      ensures o[k] <= U32_MAX
    {
      ExpandedGap(flags, factor, k, |o| - 1);
    }
  }

  /** The `scan` over the flags, stopping where the total overflows. */
  method Scan(flags: seq<bool>, factor: nat) returns (r: Option<seq<nat>>)
    requires factor <= U32_MAX
    ensures r == Scanned(flags, factor)
  {
    if factor == 0 {
      return None;
    }
    var state: nat := 0;
    var out: seq<nat> := [];
    for k := 0 to |flags|
      invariant out == Offsets(flags[..k], factor)
      invariant state == (if k == 0 then 0 else out[k - 1]) <= U32_MAX
    {
      var step := if flags[k] then factor - 1 else 0;
      assert flags[..k + 1][..k] == flags[..k];
      if state + step > U32_MAX {
        OffsetsPrefix(flags, factor, k + 1);
        assert Offsets(flags, factor)[k] == state + step;
        ExpandedGap(flags, factor, k, |flags| - 1);
        return None;
      }
      state := state + step;
      out := out + [state];
    }
    assert flags[..|flags|] == flags;
    r := Some(out);
  }

  /** The first loop of `expand`: clears the flag of every row and column
      that holds a galaxy. */
  method EmptyLines(g: Image) returns (rows: seq<bool>, cols: seq<bool>)
    requires Rect(g)
    ensures rows == RowFlags(g) && cols == ColFlags(g)
  {
    var w := |g[0]|;
    rows := seq(|g|, _ => true);
    cols := seq(w, _ => true);
    for r := 0 to |g|
      invariant |rows| == |g| && |cols| == w
      invariant forall i :: 0 <= i < |g| ==> rows[i] == (i >= r || EmptyRow(g, i))
      invariant forall j :: 0 <= j < w ==> cols[j] == ColClear(g, j, r)
    {
      for c := 0 to w
        invariant |rows| == |g| && |cols| == w
        invariant forall i :: 0 <= i < |g| && i != r ==> rows[i] == (i > r || EmptyRow(g, i))
        invariant rows[r] == RowClear(g, r, c)
        invariant forall j :: 0 <= j < w ==> cols[j] == (ColClear(g, j, r) && (j < c ==> !g[r][j]))
      {
        if g[r][c] {
          cols := cols[c := false];
          rows := rows[r := false];
        }
      }
      forall j | 0 <= j < w
        ensures cols[j] == ColClear(g, j, r + 1)
      {
        assert ColClear(g, j, r + 1) == (ColClear(g, j, r) && !g[r][j]);
      }
    }
  }

  /** The cells of a line: a galaxy where the character is `#`. */
  function Cells(s: string): (cells: seq<bool>)
    ensures |cells| == |s| && forall i :: 0 <= i < |s| ==> cells[i] == (s[i] == '#')
  {
    seq(|s|, i requires 0 <= i < |s| => s[i] == '#')
  }

  /** `parse_input`: the cells of all lines, cut into rows of the total
      count over the number of lines. No lines divides by zero; rows of no
      cells, or cells that do not fill whole rows, make `Grid::from_vec`
      fail or give no image: `None`. */
  function Parse(input: string): (r: Option<Image>)
    ensures r.Some? ==> Rect(r.value)
  {
    var lines := Lines(input);
    FromVec(Cells(Flatten(lines)), |lines|)
  }

  /** The end of `parse_input`: `count` lines of cells in `data`. */
  function FromVec(data: seq<bool>, count: nat): (r: Option<Image>)
    ensures r.Some? ==> Rect(r.value)
  {
    if count == 0 then None
    else
      var cols := |data| / count;
      if |data| == 0 || cols == 0 || |data| % cols != 0 then None
      else
        ChunkRect(data, cols);
        Some(Chunk(data, cols))
  }

  /** The inner loop of `parse_input`: one line's cells pushed. */
  method PushCells(data: seq<bool>, line: string) returns (out: seq<bool>)
    ensures out == data + Cells(line)
  {
    out := data;
    for j := 0 to |line|
      invariant out == data + Cells(line[..j])
    {
      assert Cells(line[..j + 1]) == Cells(line[..j]) + [line[j] == '#'];
      out := out + [line[j] == '#'];
    }
    assert line[..|line|] == line;
  }

  /** The loops of `parse_input`, counting the lines and collecting the
      cells. */
  method ParseInput(input: string) returns (grid: Option<Image>)
    ensures grid == Parse(input)
  {
    var lines := Lines(input);
    var data: seq<bool> := [];
    var count: nat := 0;
    for i := 0 to |lines|
      invariant count == i && data == Cells(Flatten(lines[..i]))
    {
      var line := lines[i];
      ghost var before := data;
      data := PushCells(data, line);
      assert lines[..i + 1] == lines[..i] + [line];
      FlattenSnoc(lines[..i], line);
      assert Cells(Flatten(lines[..i]) + line) == before + Cells(line);
      count := count + 1;
    }
    assert lines[..|lines|] == lines;
    grid := FromVec(data, count);
  }

  /** A row as the input writes it. */
  function RowText(row: seq<bool>): (s: string)
    ensures |s| == |row| && forall i :: 0 <= i < |row| ==> s[i] == (if row[i] then '#' else '.')
  {
    seq(|row|, i requires 0 <= i < |row| => if row[i] then '#' else '.')
  }

  function RowTexts(g: Image): (ls: seq<string>)
    ensures |ls| == |g| && forall r :: 0 <= r < |g| ==> ls[r] == RowText(g[r])
  {
    seq(|g|, r requires 0 <= r < |g| => RowText(g[r]))
  }

  /** The image as the puzzle input writes it: a line per row. */
  function Text(g: Image): string
    requires Rect(g)
  {
    Join(RowTexts(g), "\n") + "\n"
  }

  lemma {:induction false} CellsFlatten(g: Image)
    ensures Cells(Flatten(RowTexts(g))) == Flatten(g)
    decreases |g|
  {
    if g != [] {
      CellsFlatten(g[1..]);
      assert RowTexts(g)[1..] == RowTexts(g[1..]);
      var a, b := RowText(g[0]), Flatten(RowTexts(g[1..]));
      assert Cells(a) == g[0];
      assert Cells(a + b) == Cells(a) + Cells(b);
    }
  }

  /** Reading a written image gives it back. */
  lemma {:induction false} ParseRoundTrip(g: Image)
    requires Rect(g)
    ensures Parse(Text(g)) == Some(g)
  {
    var ls := RowTexts(g);
    forall k | 0 <= k < |ls|
      ensures Free(ls[k], "\n")
    {
      assert '\n' !in ls[k];
      FreeChar(ls[k], '\n');
    }
    LinesRoundTrip(ls);
    var w := |g[0]|;
    CellsFlatten(g);
    FlattenLength(g, w);
    ChunkFlatten(g, w);
    DivOfMultiple(w, |g|);
    assert |g| * w == w * |g|;
    DivOfMultiple(|g|, w);
  }
}
