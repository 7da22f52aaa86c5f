/** The parts of the `grid` crate the solutions rely on, over a grid held
    row by row: `Grid::from_vec`, which cuts a flat vector into rows, and
    the quarter and half turns. */
module Grids {
  import opened Common

  /** At least one row and one column, every row as wide as the first. */
  predicate Rect<T>(g: seq<seq<T>>)
  {
    |g| >= 1 && |g[0]| >= 1 && forall r :: 0 <= r < |g| ==> |g[r]| == |g[0]|
  }

  function Flatten<T>(ls: seq<seq<T>>): seq<T>
  {
    if ls == [] then [] else ls[0] + Flatten(ls[1..])
  }

  lemma {:induction false} FlattenSnoc<T>(ls: seq<seq<T>>, x: seq<T>)
    ensures Flatten(ls + [x]) == Flatten(ls) + x
    decreases |ls|
  {
    if ls == [] {
      assert [] + [x] == [x];
      assert Flatten([x]) == x + Flatten([x][1..]);
    } else {
      FlattenSnoc(ls[1..], x);
      assert (ls + [x])[1..] == ls[1..] + [x];
    }
  }

  /** Cuts `data` into rows of `w`, as `Grid::from_vec` lays it out. */
  function Chunk<T>(data: seq<T>, w: nat): seq<seq<T>>
    requires w > 0
    decreases |data|
  {
    if |data| <= w then [data] else [data[..w]] + Chunk(data[w..], w)
  }

  /** Data that fills whole rows is cut into rows all of the given width. */
  lemma {:induction false} ChunkRect<T>(data: seq<T>, w: nat)
    requires w > 0 && |data| > 0 && |data| % w == 0
    ensures var c := Chunk(data, w); Rect(c) && |c[0]| == w && |c| == |data| / w
    decreases |data|
  {
    var c := Chunk(data, w);
    if |data| > w {
      var q := |data| / w;
      assert |data| == w * q;
      assert |data| - w == w * (q - 1);
      DivUnique(|data| - w, w, q - 1, 0);
      ChunkRect(data[w..], w);
      assert c[1..] == Chunk(data[w..], w);
      forall r | 0 <= r < |c|
        ensures |c[r]| == w
      {
        if r > 0 {
          assert c[r] == c[1..][r - 1];
        }
      }
    } else if |data| < w {
      DivUnique(|data|, w, 0, |data|);
    } else {
      DivUnique(|data|, w, 1, 0);
    }
  }

  lemma {:induction false} FlattenLength<T>(g: seq<seq<T>>, w: nat)
    requires forall r :: 0 <= r < |g| ==> |g[r]| == w
    ensures |Flatten(g)| == |g| * w
    decreases |g|
  {
    if g != [] {
      FlattenLength(g[1..], w);
      var n: int := |g| - 1;
      assert |g| * w == w + n * w;
    }
  }

  /** Cutting the cells of equal rows at their width gives the rows back. */
  lemma {:induction false} ChunkFlatten<T>(g: seq<seq<T>>, w: nat)
    requires w > 0 && |g| >= 1 && forall r :: 0 <= r < |g| ==> |g[r]| == w
    ensures Chunk(Flatten(g), w) == g
    decreases |g|
  {
    var f := Flatten(g);
    assert f == g[0] + Flatten(g[1..]);
    if |g| > 1 {
      ChunkFlatten(g[1..], w);
      assert Flatten(g[1..]) == g[1] + Flatten(g[2..]);
      assert f[..w] == g[0] && f[w..] == Flatten(g[1..]);
      assert [g[0]] + g[1..] == g;
    } else {
      assert g[1..] == [];
      assert Flatten(g[1..]) == [];
      assert f == g[0];
      assert g == [g[0]];
    }
  }

  /** `rotate_right`: a clockwise quarter turn; the top row becomes the
      right-most column. */
  function RotateRight<T>(g: seq<seq<T>>): (t: seq<seq<T>>)
    requires Rect(g)
    ensures Rect(t) && |t| == |g[0]| && |t[0]| == |g|
    ensures forall r, c :: 0 <= r < |g[0]| && 0 <= c < |g| ==> t[r][c] == g[|g| - 1 - c][r]
  {
    seq(|g[0]|, r requires 0 <= r < |g[0]| => seq(|g|, c requires 0 <= c < |g| => g[|g| - 1 - c][r]))
  }

  /** `rotate_left`: a counter-clockwise quarter turn; the top row becomes
      the left-most column, read upwards. */
  function RotateLeft<T>(g: seq<seq<T>>): (t: seq<seq<T>>)
    requires Rect(g)
    ensures Rect(t) && |t| == |g[0]| && |t[0]| == |g|
    ensures forall r, c :: 0 <= r < |g[0]| && 0 <= c < |g| ==> t[r][c] == g[c][|g[0]| - 1 - r]
  {
    seq(|g[0]|, r requires 0 <= r < |g[0]| => seq(|g|, c requires 0 <= c < |g| => g[c][|g[0]| - 1 - r]))
  }

  /** `rotate_half`: a half turn. */
  function RotateHalf<T>(g: seq<seq<T>>): (t: seq<seq<T>>)
    requires Rect(g)
    ensures Rect(t) && |t| == |g| && |t[0]| == |g[0]|
    ensures forall r, c :: 0 <= r < |g| && 0 <= c < |g[0]| ==> t[r][c] == g[|g| - 1 - r][|g[0]| - 1 - c]
  {
    seq(|g|, r requires 0 <= r < |g| => seq(|g[0]|, c requires 0 <= c < |g[0]| => g[|g| - 1 - r][|g[0]| - 1 - c]))
  }

  lemma {:induction false} GridEq<T>(a: seq<seq<T>>, b: seq<seq<T>>)
    requires |a| == |b| && forall r :: 0 <= r < |a| ==> |a[r]| == |b[r]|
    requires forall r, c :: 0 <= r < |a| && 0 <= c < |a[r]| ==> a[r][c] == b[r][c]
    ensures a == b
  {
    forall r | 0 <= r < |a|
      ensures a[r] == b[r]
    {
    }
  }

  /** A quarter turn left undoes a quarter turn right. */
  lemma {:induction false} LeftUndoesRight<T>(g: seq<seq<T>>)
    requires Rect(g)
    ensures RotateLeft(RotateRight(g)) == g
  {
    GridEq(RotateLeft(RotateRight(g)), g);
  }

  /** A quarter turn right undoes a quarter turn left. */
  lemma {:induction false} RightUndoesLeft<T>(g: seq<seq<T>>)
    requires Rect(g)
    ensures RotateRight(RotateLeft(g)) == g
  {
    GridEq(RotateRight(RotateLeft(g)), g);
  }

  /** A half turn undoes itself. */
  lemma {:induction false} HalfUndoesHalf<T>(g: seq<seq<T>>)
    requires Rect(g)
    ensures RotateHalf(RotateHalf(g)) == g
  {
    GridEq(RotateHalf(RotateHalf(g)), g);
  }

  /** The grid with `f` applied to every cell. */
  function MapCells<T, U>(g: seq<seq<T>>, f: T -> U): (m: seq<seq<U>>)
    ensures |m| == |g| && forall r :: 0 <= r < |g| ==> |m[r]| == |g[r]|
    ensures forall r, c :: 0 <= r < |g| && 0 <= c < |g[r]| ==> m[r][c] == f(g[r][c])
  {
    seq(|g|, r requires 0 <= r < |g| => seq(|g[r]|, c requires 0 <= c < |g[r]| => f(g[r][c])))
  }

  /** Mapping the cells and turning commute. */
  lemma {:induction false} MapRight<T, U>(g: seq<seq<T>>, f: T -> U)
    requires Rect(g)
    ensures Rect(MapCells(g, f)) && RotateRight(MapCells(g, f)) == MapCells(RotateRight(g), f)
  {
    GridEq(RotateRight(MapCells(g, f)), MapCells(RotateRight(g), f));
  }

  lemma {:induction false} MapLeft<T, U>(g: seq<seq<T>>, f: T -> U)
    requires Rect(g)
    ensures Rect(MapCells(g, f)) && RotateLeft(MapCells(g, f)) == MapCells(RotateLeft(g), f)
  {
    GridEq(RotateLeft(MapCells(g, f)), MapCells(RotateLeft(g), f));
  }

  lemma {:induction false} MapHalf<T, U>(g: seq<seq<T>>, f: T -> U)
    requires Rect(g)
    ensures Rect(MapCells(g, f)) && RotateHalf(MapCells(g, f)) == MapCells(RotateHalf(g), f)
  {
    GridEq(RotateHalf(MapCells(g, f)), MapCells(RotateHalf(g), f));
  }
}
