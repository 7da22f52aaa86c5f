/** Day 18: the surface of a droplet made of unit cubes, first all of it,
    then only the part that air flooding in from outside can touch. */
module Day18 {
  import opened Common

  /** A unit cube, by the integer coordinates of its corner. */
  type Cube = (int, int, int)

  /** One line of `read_cubelets`: exactly three comma-separated `i16`s;
      anything else panics, which is `None` here. */
  function ParseCube(line: string): (r: Option<Cube>)
    ensures r.Some? ==> |Split(line, ",")| == 3
  {
    var parts := Split(line, ",");
    if |parts| != 3 then None
    else
      match (ParseInt(parts[0], -0x8000, 0x7FFF), ParseInt(parts[1], -0x8000, 0x7FFF), ParseInt(parts[2], -0x8000, 0x7FFF))
      case (Some(x), Some(y), Some(z)) => Some((x, y, z))
      case _ => None
  }

  /** The droplet: the set of the cubes of all lines (a repeated line adds
      nothing). */
  function ReadCubes(lines: seq<string>): (cubes: set<Cube>)
    requires forall i :: 0 <= i < |lines| ==> ParseCube(lines[i]).Some?
    ensures forall c :: c in cubes <==> exists i :: 0 <= i < |lines| && ParseCube(lines[i]) == Some(c)
  {
    set i | 0 <= i < |lines| :: ParseCube(lines[i]).value
  }

  /** `get_faces`: the six axis-aligned neighbours, in the source's order. */
  function Faces(c: Cube): (fs: seq<Cube>)
    ensures |fs| == 6
  {
    [(c.0 + 1, c.1, c.2), (c.0 - 1, c.1, c.2),
     (c.0, c.1 + 1, c.2), (c.0, c.1 - 1, c.2),
     (c.0, c.1, c.2 + 1), (c.0, c.1, c.2 - 1)]
  }

  function Norm(c: Cube): nat
  {
    Abs(c.0) + Abs(c.1) + Abs(c.2)
  }

  function Distance(a: Cube, b: Cube): nat
  {
    Abs(a.0 - b.0) + Abs(a.1 - b.1) + Abs(a.2 - b.2)
  }

  /** The faces are exactly the cubes at distance one, each listed once. */
  lemma {:induction false} FacesAreNeighbours(c: Cube, d: Cube)
    ensures d in Faces(c) <==> Distance(c, d) == 1
    ensures forall i, j :: 0 <= i < j < 6 ==> Faces(c)[i] != Faces(c)[j]
  {
    if Distance(c, d) == 1 {
      if d.0 != c.0 {
        assert d == Faces(c)[0] || d == Faces(c)[1];
      } else if d.1 != c.1 {
        assert d == Faces(c)[2] || d == Faces(c)[3];
      } else {
        assert d == Faces(c)[4] || d == Faces(c)[5];
      }
    }
  }

  /** How many of the faces `fs` no cube covers. */
  function Uncovered(fs: seq<Cube>, cubes: set<Cube>): (n: nat)
    ensures n <= |fs|
  {
    if fs == [] then 0
    else Uncovered(fs[..|fs| - 1], cubes) + (if fs[|fs| - 1] !in cubes then 1 else 0)
  }

  /** How many of the faces `fs` no cube covers but air touches. */
  function Touching(fs: seq<Cube>, cubes: set<Cube>, air: set<Cube>): (n: nat)
    ensures n <= Uncovered(fs, cubes)
  {
    if fs == [] then 0
    else Touching(fs[..|fs| - 1], cubes, air) + (if fs[|fs| - 1] !in cubes && fs[|fs| - 1] in air then 1 else 0)
  }

  /** The (cube, face) pairs `part_one` counts, cube by cube in `order`. */
  function Exposed(order: seq<Cube>, cubes: set<Cube>): nat
  {
    if order == [] then 0
    else Exposed(order[..|order| - 1], cubes) + Uncovered(Faces(order[|order| - 1]), cubes)
  }

  /** The (cube, face) pairs `part_two` counts, cube by cube in `order`. */
  function Exterior(order: seq<Cube>, cubes: set<Cube>, air: set<Cube>): nat
  {
    if order == [] then 0
    else Exterior(order[..|order| - 1], cubes, air) + Touching(Faces(order[|order| - 1]), cubes, air)
  }

  /** The exterior surface is part of the whole surface. */
  lemma {:induction false} ExteriorAtMostExposed(order: seq<Cube>, cubes: set<Cube>, air: set<Cube>)
    ensures Exterior(order, cubes, air) <= Exposed(order, cubes)
  {
    if order != [] {
      ExteriorAtMostExposed(order[..|order| - 1], cubes, air);
    }
  }

  /** Faces that no cube covers are all counted. */
  lemma {:induction false} AllUncovered(fs: seq<Cube>, cubes: set<Cube>)
    requires forall i :: 0 <= i < |fs| ==> fs[i] !in cubes
    ensures Uncovered(fs, cubes) == |fs|
  {
    if fs != [] {
      AllUncovered(fs[..|fs| - 1], cubes);
    }
  }

  /** A cube on its own shows all six faces. */
  lemma {:induction false} LoneCube(c: Cube)
    ensures Exposed([c], {c}) == 6
  {
    assert [c][..0] == [];
    AllUncovered(Faces(c), {c});
  }

  /** `order` lists the cubes of the set once each: the iteration order of
      the hash set, which the source leaves unspecified. */
  predicate Enumerates(order: seq<Cube>, cubes: set<Cube>)
  {
    (forall c :: c in cubes ==> c in order) && (forall c :: c in order ==> c in cubes) &&
    forall i, j :: 0 <= i < j < |order| ==> order[i] != order[j]
  }

  /** The faces of one cube that the count takes: those no cube covers,
      and with `needAir` only those that air also touches. */
  method CountFaces(c: Cube, cubes: set<Cube>, air: set<Cube>, needAir: bool) returns (n: nat)
    ensures n == if needAir then Touching(Faces(c), cubes, air) else Uncovered(Faces(c), cubes)
  {
    var fs := Faces(c);
    n := 0;
    for k := 0 to 6
      invariant n == if needAir then Touching(fs[..k], cubes, air) else Uncovered(fs[..k], cubes)
    {
      assert fs[..k + 1][..k] == fs[..k];
      if fs[k] !in cubes && (!needAir || fs[k] in air) {
        n := n + 1;
      }
    }
    assert fs[..6] == fs;
  }

  /** `part_one`: for every cube, every face that no cube covers. */
  method PartOne(cubes: set<Cube>, order: seq<Cube>) returns (faces: nat)
    requires Enumerates(order, cubes)
    ensures faces == Exposed(order, cubes)
  {
    faces := 0;
    for i := 0 to |order|
      invariant faces == Exposed(order[..i], cubes)
    {
      assert order[..i + 1][..i] == order[..i];
      var n := CountFaces(order[i], cubes, {}, false);
      faces := faces + n;
    }
    assert order[..|order|] == order;
  }
}
