/** Day 22: the column tables of `Universe::new`. Every cell of every brick
    is filed under its (x, y) column as a (z, brick) pair; each column's
    pairs are then sorted and reversed into descending order, and the
    position of every pair is recorded for its brick. */
module Day22Columns {
  import opened Common
  import opened Day22

  /** `raw_intersection_map.entry((x, y)).or_default().push((z, idx))`. */
  function Push(raw: map<Column, seq<(nat, nat)>>, c: Coord, idx: nat): (r: map<Column, seq<(nat, nat)>>)
    ensures r.Keys == raw.Keys + {(c.0, c.1)}
  {
    var col := (c.0, c.1);
    raw[col := (if col in raw then raw[col] else []) + [(c.2, idx)]]
  }

  /** The raw map after the first `k` cells of brick `idx`. */
  function FileUpTo(raw: map<Column, seq<(nat, nat)>>, cells: seq<Coord>, idx: nat, k: nat): map<Column, seq<(nat, nat)>>
    requires k <= |cells|
  {
    if k == 0 then raw else Push(FileUpTo(raw, cells, idx, k - 1), cells[k - 1], idx)
  }

  /** The raw map after the first `n` bricks. */
  function RawUpTo(bricks: seq<Brick>, n: nat): map<Column, seq<(nat, nat)>>
    requires n <= |bricks|
  {
    if n == 0 then map[]
    else
      var cells := Cells(bricks[n - 1]);
      FileUpTo(RawUpTo(bricks, n - 1), cells, n - 1, |cells|)
  }

  /** The raw intersection map after every brick. */
  function Raw(bricks: seq<Brick>): map<Column, seq<(nat, nat)>>
  {
    RawUpTo(bricks, |bricks|)
  }

  /** Filing cells adds exactly their pairs, and never leaves a column
      with an empty list. */
  lemma {:induction false} FileUpToCells(raw: map<Column, seq<(nat, nat)>>, cells: seq<Coord>, idx: nat, k: nat,
                                         col: Column, p: (nat, nat))
    requires k <= |cells|
    requires forall c :: c in raw ==> raw[c] != []
    ensures var r := FileUpTo(raw, cells, idx, k);
            (col in r && p in r[col] <==> (col in raw && p in raw[col]) || (p.1 == idx && (col.0, col.1, p.0) in cells[..k])) &&
            (col in r ==> r[col] != [])
  {
    if k > 0 {
      FileUpToCells(raw, cells, idx, k - 1, col, p);
      assert cells[..k] == cells[..k - 1] + [cells[k - 1]];
    }
  }

  /** A column is in the raw map only when some brick has a cell in it,
      and its pairs are exactly the cells of bricks in that column. */
  lemma {:induction false} RawUpToCells(bricks: seq<Brick>, n: nat, col: Column, p: (nat, nat))
    requires n <= |bricks|
    ensures var r := RawUpTo(bricks, n);
            (col in r && p in r[col] <==> p.1 < n && InBox(bricks[p.1], (col.0, col.1, p.0))) &&
            (col in r ==> r[col] != [])
  {
    if n > 0 {
      var before := RawUpTo(bricks, n - 1);
      forall c | c in before
        ensures before[c] != []
      {
        RawUpToCells(bricks, n - 1, c, p);
      }
      RawUpToCells(bricks, n - 1, col, p);
      var cells := Cells(bricks[n - 1]);
      var r := FileUpTo(before, cells, n - 1, |cells|);
      assert RawUpTo(bricks, n) == r;
      FileBrickCells(before, bricks[n - 1], cells, n - 1, col, p);
      assert col in r && p in r[col] <==> p.1 < n && InBox(bricks[p.1], (col.0, col.1, p.0));
    }
  }

  /** One brick's step of `RawUpToCells`, for any listing of its cells. */
  lemma {:induction false} FileBrickCells(raw: map<Column, seq<(nat, nat)>>, b: Brick, cells: seq<Coord>, idx: nat,
                                          col: Column, p: (nat, nat))
    requires forall c :: c in raw ==> raw[c] != []
    requires forall c :: c in cells <==> InBox(b, c)
    ensures var r := FileUpTo(raw, cells, idx, |cells|);
            (col in r && p in r[col] <==> (col in raw && p in raw[col]) || (p.1 == idx && InBox(b, (col.0, col.1, p.0)))) &&
            (col in r ==> r[col] != [])
  {
    FileUpToCells(raw, cells, idx, |cells|, col, p);
    assert cells[..|cells|] == cells;
  }

  /** The raw map holds a pair under a column exactly when that cell
      belongs to that brick, and holds no empty list. */
  lemma {:induction false} RawCells(bricks: seq<Brick>, col: Column, p: (nat, nat))
    ensures col in Raw(bricks) && p in Raw(bricks)[col] <==> p.1 < |bricks| && InBox(bricks[p.1], (col.0, col.1, p.0))
    ensures col in Raw(bricks) ==> Raw(bricks)[col] != []
  {
    RawUpToCells(bricks, |bricks|, col, p);
  }

  /** The order `sort_unstable` gives (z, brick) pairs whose brick index is
      below `m`: by z, then by index. */
  function LexKey(m: nat): ((nat, nat)) -> int
  {
    (p: (nat, nat)) => p.0 * m + p.1
  }

  /** `v.sort_unstable(); v.reverse();`: the pairs in descending order. */
  function Ordered(pairs: seq<(nat, nat)>, m: nat): (r: seq<(nat, nat)>)
    ensures |r| == |pairs|
    ensures multiset(r) == multiset(pairs)
  {
    var sorted := SortBy(pairs, LexKey(m));
    var r := Reversed(sorted);
    assert multiset(r) == multiset(sorted) by {
      ReversedMultiset(sorted);
    }
    r
  }

  lemma {:induction false} ReversedMultiset<T>(s: seq<T>)
    ensures multiset(Reversed(s)) == multiset(s)
    decreases |s|
  {
    if s != [] {
      ReversedMultiset(s[1..]);
      assert s == [s[0]] + s[1..];
      assert Reversed(s) == Reversed(s[1..]) + [s[0]];
    }
  }

  lemma {:induction false} MulCancel(x: nat, y: nat, m: nat)
    requires x * m < y * m
    ensures x < y
  {
    if x > 0 && y > 0 {
      assert x * m == (x - 1) * m + m;
      assert y * m == (y - 1) * m + m;
      MulCancel(x - 1, y - 1, m);
    } else if y == 0 {
      assert false;
    }
  }

  /** Under an index bound `m`, a smaller key has a z no larger. */
  lemma {:induction false} KeyOrder(a: (nat, nat), b: (nat, nat), m: nat)
    requires a.1 < m && b.1 < m
    requires a.0 * m + a.1 <= b.0 * m + b.1
    ensures a.0 <= b.0
  {
    assert (b.0 + 1) * m == b.0 * m + m;
    MulCancel(a.0, b.0 + 1, m);
  }

  /** Sorted by the key, the pairs are in ascending z. */
  lemma {:induction false} SortedZ(sorted: seq<(nat, nat)>, m: nat, i: nat, j: nat)
    requires SortedBy(sorted, LexKey(m))
    requires forall p :: p in sorted ==> p.1 < m
    requires i < j < |sorted|
    ensures sorted[i].0 <= sorted[j].0
  {
    var a, b := sorted[i], sorted[j];
    assert LexKey(m)(a) <= LexKey(m)(b);
    KeyOrder(a, b, m);
  }

  /** Each column's list is in descending z. */
  lemma {:induction false} OrderedDescending(pairs: seq<(nat, nat)>, m: nat, k: nat, l: nat)
    requires forall p :: p in pairs ==> p.1 < m
    requires k < l < |pairs|
    ensures Ordered(pairs, m)[k].0 >= Ordered(pairs, m)[l].0
  {
    var sorted: seq<(nat, nat)> := SortBy(pairs, LexKey(m));
    forall p | p in sorted
      ensures p.1 < m
    {
      assert p in multiset(sorted);
    }
    var n := |pairs|;
    assert n - 1 - l < n - 1 - k;
    SortedZ(sorted, m, n - 1 - l, n - 1 - k);
  }

  /** The brick indices of a column's list, the column vector. */
  function Ids(pairs: seq<(nat, nat)>): (r: seq<nat>)
    ensures |r| == |pairs|
    ensures forall k :: 0 <= k < |pairs| ==> r[k] == pairs[k].1
  {
    seq(|pairs|, k requires 0 <= k < |pairs| => pairs[k].1)
  }

  /** The first loop of `Universe::new`: push (z, index) for every cell of
      every brick under its column. */
  method RawIntersections(bricks: seq<Brick>) returns (raw: map<Column, seq<(nat, nat)>>)
    ensures raw == Raw(bricks)
  {
    raw := map[];
    for idx := 0 to |bricks|
      invariant raw == RawUpTo(bricks, idx)
    {
      raw := FileCells(raw, Cells(bricks[idx]), idx);
    }
  }

  /** The inner loop for one brick: its cells, each under its column. */
  method FileCells(raw: map<Column, seq<(nat, nat)>>, cells: seq<Coord>, idx: nat)
    returns (out: map<Column, seq<(nat, nat)>>)
    ensures out == FileUpTo(raw, cells, idx, |cells|)
  {
    out := raw;
    for k := 0 to |cells|
      invariant out == FileUpTo(raw, cells, idx, k)
    {
      var c := cells[k];
      var col := (c.0, c.1);
      var column := if col in out then out[col] else [];
      out := out[col := column + [(c.2, idx)]];
    }
  }

  /** The second loop of `Universe::new` for one column: record each pair's
      position for its brick and collect the brick indices. */
  method PlaceColumn(columnIdxs: map<nat, seq<(Column, nat)>>, col: Column, v: seq<(nat, nat)>)
    returns (placed: map<nat, seq<(Column, nat)>>, ids: seq<nat>)
    ensures ids == Ids(v)
    ensures forall i :: i in columnIdxs ==> i in placed
    ensures forall i :: i in placed && placed[i] == [] ==> i in columnIdxs && columnIdxs[i] == []
    ensures forall i: nat, e: (Column, nat) :: i in placed && e in placed[i] <==>
              (i in columnIdxs && e in columnIdxs[i]) || (e.0 == col && e.1 < |v| && v[e.1].1 == i)
  {
    placed, ids := columnIdxs, [];
    for pos := 0 to |v|
      invariant ids == Ids(v[..pos])
      invariant forall i :: i in columnIdxs ==> i in placed
      invariant forall i :: i in placed && placed[i] == [] ==> i in columnIdxs && columnIdxs[i] == []
      invariant forall i: nat, e: (Column, nat) :: i in placed && e in placed[i] <==>
                  (i in columnIdxs && e in columnIdxs[i]) || (e.0 == col && e.1 < pos && v[e.1].1 == i)
    {
      var i := v[pos].1;
      var entries := if i in placed then placed[i] else [];
      placed := placed[i := entries + [(col, pos)]];
      ids := ids + [i];
    }
    assert v[..|v|] == v;
  }
}
