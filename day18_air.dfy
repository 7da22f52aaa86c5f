/** Day 18, part two: air flooded in from a diamond-shaped shell around
    the droplet, and the faces that air touches. */
module Day18Air {
  import opened Common
  import opened Day18

  /** One more than the largest norm of a cube: `max_radius`. */
  function MaxRadius(order: seq<Cube>): (r: nat)
    requires order != []
    ensures forall i :: 0 <= i < |order| ==> Norm(order[i]) < r
    ensures exists i :: 0 <= i < |order| && Norm(order[i]) + 1 == r
  {
    if |order| == 1 then Norm(order[0]) + 1
    else
      var r := MaxRadius(order[..|order| - 1]);
      assert forall i :: 0 <= i < |order| - 1 ==> order[..|order| - 1][i] == order[i];
      if Norm(order[|order| - 1]) + 1 > r then Norm(order[|order| - 1]) + 1 else r
  }

  /** The cells with every coordinate in [-r, r]: a bound for the flood. */
  ghost function Box(r: nat): set<Cube>
  {
    set x: int, y: int, z: int | -(r as int) <= x <= r && -(r as int) <= y <= r && -(r as int) <= z <= r :: (x, y, z)
  }

  /** The seeding loops have reached column `x`, row `y`. */
  predicate Seeded(c: Cube, x: int, y: int)
  {
    c.0 < x || (c.0 == x && c.1 < y)
  }

  /** The seeding loops of `part_two`: every cell of norm exactly `r`, each
      put into `air` and onto the stack (cells with z = 0 twice). */
  method Seed(r: nat) returns (air: set<Cube>, exploring: seq<Cube>)
    ensures forall c :: c in air <==> Norm(c) == r
    ensures forall c :: c in exploring <==> c in air
  {
    air := {};
    exploring := [];
    var x: int := -(r as int);
    while x <= r
      invariant -(r as int) <= x <= r + 1
      invariant forall c :: c in air <==> Norm(c) == r && c.0 < x
      invariant forall c :: c in exploring <==> c in air
    {
      var w := r - Abs(x);
      var y := -w;
      while y <= w
        invariant -w <= y <= w + 1
        invariant forall c :: c in air <==> Norm(c) == r && Seeded(c, x, y)
        invariant forall c :: c in exploring <==> c in air
      {
        var k := w - Abs(y);
        assert forall c :: Norm(c) == r && c.0 == x && c.1 == y ==> c.2 == -k || c.2 == k;
        air := air + {(x, y, -k), (x, y, k)};
        exploring := exploring + [(x, y, -k), (x, y, k)];
        y := y + 1;
      }
      assert forall c :: Norm(c) == r && c.0 == x ==> c.1 <= w;
      x := x + 1;
    }
  }

  /** Every face of `a` inside the ball and not a cube is air. */
  predicate Closed(a: Cube, air: set<Cube>, cubes: set<Cube>, r: nat)
  {
    forall i :: 0 <= i < 6 && Norm(Faces(a)[i]) < r && Faces(a)[i] !in cubes ==> Faces(a)[i] in air
  }

  lemma {:induction false} ClosedGrows(air: set<Cube>, more: set<Cube>, cubes: set<Cube>, r: nat)
    requires air <= more
    ensures forall a :: Closed(a, air, cubes, r) ==> Closed(a, more, cubes, r)
  {
  }

  /** A walk from the shell: it starts at a cell of norm `r`, each cell is a
      face of the one before, and no cell is a cube or outside the ball. */
  ghost predicate Walk(w: seq<Cube>, cubes: set<Cube>, r: nat)
  {
    |w| >= 1 && Norm(w[0]) == r &&
    (forall i :: 0 <= i < |w| ==> Norm(w[i]) <= r && w[i] !in cubes) &&
    (forall i :: 0 <= i < |w| - 1 ==> Moves(w, i))
  }

  /** The walk moves from its `i`-th cell to a face of it. */
  ghost predicate Moves(w: seq<Cube>, i: int)
    requires 0 <= i < |w| - 1
  {
    w[i + 1] in Faces(w[i])
  }

  /** `c` is reached from the shell by a walk around the cubes. */
  ghost predicate Reached(c: Cube, cubes: set<Cube>, r: nat)
  {
    exists w :: Walk(w, cubes, r) && w[|w| - 1] == c
  }

  lemma {:induction false} ShellReached(c: Cube, cubes: set<Cube>, r: nat)
    requires Norm(c) == r && c !in cubes
    ensures Reached(c, cubes, r)
  {
    assert Walk([c], cubes, r);
  }

  /** A face of a reached cell, in the ball and not a cube, is reached. */
  lemma {:induction false} ReachedStep(a: Cube, b: Cube, cubes: set<Cube>, r: nat)
    requires Reached(a, cubes, r) && b in Faces(a) && Norm(b) <= r && b !in cubes
    ensures Reached(b, cubes, r)
  {
    var w :| Walk(w, cubes, r) && w[|w| - 1] == a;
    var v := w + [b];
    assert v[|v| - 1] == b && v[|v| - 2] == a;
    assert forall i :: 0 <= i < |w| ==> v[i] == w[i];
    assert forall i :: 0 <= i < |v| - 1 ==> Moves(v, i) by {
      forall i | 0 <= i < |v| - 1
        ensures Moves(v, i)
      {
        if i < |w| - 1 {
          assert Moves(w, i);
        }
      }
    }
    assert Walk(v, cubes, r);
  }

  /** A set of cells that holds the shell and is closed under moves inside
      the ball that avoid cubes holds every cell of every walk. */
  lemma {:induction false} WalkInside(w: seq<Cube>, cubes: set<Cube>, r: nat, air: set<Cube>)
    requires Walk(w, cubes, r)
    requires forall c :: Norm(c) == r ==> c in air
    requires forall a :: a in air ==> Closed(a, air, cubes, r)
    ensures w[|w| - 1] in air
    decreases |w|
  {
    if |w| > 1 {
      var u := w[..|w| - 1];
      assert forall i :: 0 <= i < |u| ==> u[i] == w[i];
      assert forall i :: 0 <= i < |u| - 1 ==> Moves(u, i) by {
        forall i | 0 <= i < |u| - 1
          ensures Moves(u, i)
        {
          assert Moves(w, i);
        }
      }
      assert Walk(u, cubes, r);
      WalkInside(u, cubes, r, air);
      var a, b := w[|w| - 2], w[|w| - 1];
      assert Moves(w, |w| - 2);
      assert b in Faces(a);
      if Norm(b) < r {
        var i :| 0 <= i < 6 && Faces(a)[i] == b;
        assert Closed(a, air, cubes, r);
      }
    }
  }

  lemma {:induction false} PopLast(s: seq<Cube>)
    requires s != []
    ensures forall c :: c in s ==> c in s[..|s| - 1] || c == s[|s| - 1]
  {
    assert s == s[..|s| - 1] + [s[|s| - 1]];
  }

  /** Cells added as faces of a reached cell, inside the ball and not
      cubes, keep every cell of the air reached. */
  lemma {:induction false} ReachedGrows(before: set<Cube>, air: set<Cube>, cube: Cube, cubes: set<Cube>, r: nat)
    requires cube in before && forall c :: c in before ==> Reached(c, cubes, r)
    requires forall c :: c in air ==> Norm(c) <= r && c !in cubes
    requires forall c :: c in air && c !in before ==> c in Faces(cube)
    ensures forall c :: c in air ==> Reached(c, cubes, r)
  {
    forall c | c in air
      ensures Reached(c, cubes, r)
    {
      if c !in before {
        ReachedStep(cube, c, cubes, r);
      }
    }
  }

  /** What the flood keeps true: air lies in the ball of radius `r`, holds
      no cube, contains the shell, and is closed at every cell already
      taken off the stack. */
  ghost predicate Flooding(air: set<Cube>, exploring: seq<Cube>, cubes: set<Cube>, r: nat)
  {
    (forall c :: c in air ==> Norm(c) <= r && c !in cubes) &&
    (forall c :: Norm(c) == r ==> c in air) &&
    (forall c :: c in exploring ==> c in air) &&
    (forall a :: a in air && a !in exploring ==> Closed(a, air, cubes, r))
  }

  lemma {:induction false} InBox(c: Cube, r: nat)
    requires Norm(c) <= r
    ensures c in Box(r)
  {
  }

  /** One pop of the flood: look at the six faces of `cube` and take in
      every one that is inside the ball, not a cube and not yet air. */
  method Spread(cube: Cube, cubes: set<Cube>, r: nat, air0: set<Cube>, rest: seq<Cube>)
    returns (air: set<Cube>, exploring: seq<Cube>)
    requires cube in air0
    requires forall c :: c in air0 ==> Norm(c) <= r && c !in cubes
    requires forall c :: Norm(c) == r ==> c in air0
    requires forall c :: c in rest ==> c in air0
    requires forall a :: a in air0 && a !in rest && a != cube ==> Closed(a, air0, cubes, r)
    ensures Flooding(air, exploring, cubes, r)
    ensures air0 <= air <= Box(r)
    ensures air == air0 ==> exploring == rest
    ensures air != air0 ==> air0 < air
    ensures forall c :: c in air && c !in air0 ==> c in Faces(cube)
  {
    air := air0;
    exploring := rest;
    var fs := Faces(cube);
    for k := 0 to 6
      invariant air0 <= air
      invariant forall c :: c in air ==> Norm(c) <= r && c !in cubes
      invariant forall c :: c in exploring ==> c in air
      invariant forall a :: a in air && a !in exploring && a != cube ==> Closed(a, air, cubes, r)
      invariant forall i :: 0 <= i < k && Norm(fs[i]) < r && fs[i] !in cubes ==> fs[i] in air
      invariant air == air0 ==> exploring == rest
      invariant forall c :: c in air && c !in air0 ==> c in fs
    {
      if Norm(fs[k]) < r && fs[k] !in cubes && fs[k] !in air {
        ClosedGrows(air, air + {fs[k]}, cubes, r);
        air := air + {fs[k]};
        exploring := exploring + [fs[k]];
      }
    }
    assert Closed(cube, air, cubes, r);
    forall c | c in air
      ensures c in Box(r)
    {
      InBox(c, r);
    }
  }

  /** The flood loop of `part_two`: pop a cell, spread to its faces, until
      the stack is empty. The finished air holds the shell, no cube, stays
      in the ball, and is closed under moves inside the ball that avoid
      cubes. */
  method Flood(cubes: set<Cube>, r: nat) returns (air: set<Cube>)
    requires forall c :: c in cubes ==> Norm(c) < r
    ensures forall c :: Norm(c) == r ==> c in air
    ensures forall c :: c in air ==> Norm(c) <= r && c !in cubes
    ensures forall a :: a in air ==> Closed(a, air, cubes, r)
    ensures forall c :: c in air <==> Reached(c, cubes, r)
  {
    var exploring;
    air, exploring := Seed(r);
    forall c | c in air
      ensures c in Box(r) && Reached(c, cubes, r)
    {
      InBox(c, r);
      ShellReached(c, cubes, r);
    }
    while exploring != []
      invariant Flooding(air, exploring, cubes, r)
      invariant air <= Box(r)
      invariant forall c :: c in air ==> Reached(c, cubes, r)
      decreases Box(r) - air, |exploring|
    {
      var cube := exploring[|exploring| - 1];
      var rest := exploring[..|exploring| - 1];
      PopLast(exploring);
      ghost var before := air;
      air, exploring := Spread(cube, cubes, r, air, rest);
      assert air != before ==> Box(r) - air < Box(r) - before;
      ReachedGrows(before, air, cube, cubes, r);
    }
    forall c | Reached(c, cubes, r)
      ensures c in air
    {
      var w :| Walk(w, cubes, r) && w[|w| - 1] == c;
      WalkInside(w, cubes, r, air);
    }
  }

  /** `part_two`: flood the air in, then count the faces of every cube
      that touch it. */
  method PartTwo(cubes: set<Cube>, order: seq<Cube>) returns (faces: nat, air: set<Cube>)
    requires Enumerates(order, cubes) && cubes != {}
    ensures faces == Exterior(order, cubes, air) && faces <= Exposed(order, cubes)
    ensures forall c :: Norm(c) == MaxRadius(order) ==> c in air
    ensures forall c :: c in air ==> Norm(c) <= MaxRadius(order) && c !in cubes
    ensures forall a :: a in air ==> Closed(a, air, cubes, MaxRadius(order))
    ensures forall c :: c in air <==> Reached(c, cubes, MaxRadius(order))
  {
    ghost var c0 :| c0 in cubes;
    assert c0 in order;
    var r := MaxRadius(order);
    forall c | c in cubes
      ensures Norm(c) < r
    {
      var i :| 0 <= i < |order| && order[i] == c;
    }
    air := Flood(cubes, r);
    faces := CountExterior(order, cubes, air);
    ExteriorAtMostExposed(order, cubes, air);
  }

  /** The last loop of `part_two`: the faces of every cube that are not
      cubes and are air. */
  method CountExterior(order: seq<Cube>, cubes: set<Cube>, air: set<Cube>) returns (faces: nat)
    ensures faces == Exterior(order, cubes, air)
  {
    faces := 0;
    for i := 0 to |order|
      invariant faces == Exterior(order[..i], cubes, air)
    {
      assert order[..i + 1][..i] == order[..i];
      var n := CountFaces(order[i], cubes, air, true);
      faces := faces + n;
    }
    assert order[..|order|] == order;
  }
}
