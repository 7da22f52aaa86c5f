/** Day 24: the A* search across the valley, minute by minute, and the
    three legs of part two. */
module Day24Search {
  import opened Common
  import opened Day24

  /** `SearchPoint`: a tile, the minute it is reached, and the estimate of
      what is left. */
  datatype Point = Point(coords: Coords, time: nat, heuristic: nat)

  /** `estimate_cost`, the only thing the heap orders by. */
  function Estimate(p: Point): nat
  {
    p.time + p.heuristic
  }

  /** The heuristic: `abs_diff` in each coordinate, added. */
  function Distance(a: Coords, b: Coords): nat
  {
    Abs(a.0 - b.0) + Abs(a.1 - b.1)
  }

  /** `queue.pop()` takes an entry of least estimate; among equal estimates
      the heap's choice is left open. */
  predicate Lowest(heap: seq<Point>, i: int)
  {
    0 <= i < |heap| && forall j :: 0 <= j < |heap| ==> Estimate(heap[i]) <= Estimate(heap[j])
  }

  function MinIndex(heap: seq<Point>): (r: nat)
    requires heap != []
    ensures Lowest(heap, r)
    decreases |heap|
  {
    if |heap| == 1 then 0
    else
      var k := MinIndex(heap[1..]);
      if Estimate(heap[0]) <= Estimate(heap[1..][k]) then 0 else k + 1
  }

  function RemoveAt<T>(s: seq<T>, i: nat): (r: seq<T>)
    requires i < |s|
    ensures |r| == |s| - 1
    ensures forall j :: 0 <= j < |r| ==> r[j] == if j < i then s[j] else s[j + 1]
  {
    s[..i] + s[i + 1..]
  }

  /** The five moves tried: the four neighbours and waiting in place. */
  const MOVES: seq<(int, int)> := [(0, -1), (1, 0), (0, 1), (-1, 0), (0, 0)]

  /** The moves are exactly the steps of at most one tile. */
  lemma MovesAreSteps(d: (int, int))
    ensures d in MOVES <==> Abs(d.0) + Abs(d.1) <= 1
  {
    if Abs(d.0) + Abs(d.1) <= 1 {
      if d.0 == 0 {
        assert d.1 == -1 || d.1 == 0 || d.1 == 1;
      } else {
        assert d.1 == 0 && (d.0 == 1 || d.0 == -1);
      }
    }
  }

  function End(from: Coords, path: seq<Coords>): Coords
  {
    if path == [] then from else path[|path| - 1]
  }

  /** A minute of the expedition: from `a` to `b`, at most one tile away,
      onto a tile that is not a wall and that no blizzard is on at the
      minute `t` of arrival. */
  ghost predicate Move(v: Valley, a: Coords, b: Coords, t: nat)
  {
    Distance(a, b) <= 1 && b in v.open && !Stormy(v, t, b)
  }

  /** `path` lists the tiles occupied after each minute, starting from
      `from` at minute `t0`. */
  ghost predicate Walk(v: Valley, from: Coords, t0: nat, path: seq<Coords>)
    decreases |path|
  {
    path == [] ||
    (Walk(v, from, t0, path[..|path| - 1]) &&
     Move(v, End(from, path[..|path| - 1]), path[|path| - 1], t0 + |path|))
  }

  lemma {:induction false} WalkSnoc(v: Valley, from: Coords, t0: nat, path: seq<Coords>, b: Coords)
    requires Walk(v, from, t0, path) && Move(v, End(from, path), b, t0 + |path| + 1)
    ensures Walk(v, from, t0, path + [b]) && End(from, path + [b]) == b
  {
    assert (path + [b])[..|path|] == path;
  }

  /** A walk of `n` minutes ends at most `n` tiles away, so no search can
      arrive before the heuristic says. */
  lemma {:induction false} WalkBound(v: Valley, from: Coords, t0: nat, path: seq<Coords>)
    requires Walk(v, from, t0, path)
    ensures Distance(from, End(from, path)) <= |path|
    decreases |path|
  {
    if path != [] {
      WalkBound(v, from, t0, path[..|path| - 1]);
    }
  }

  /** Two walks, one after the other, are a walk. */
  lemma {:induction false} WalkAppend(v: Valley, from: Coords, t0: nat, p: seq<Coords>, q: seq<Coords>)
    requires Walk(v, from, t0, p) && Walk(v, End(from, p), t0 + |p|, q)
    ensures Walk(v, from, t0, p + q) && End(from, p + q) == End(End(from, p), q)
    decreases |q|
  {
    if q == [] {
      assert p + q == p;
    } else {
      var q' := q[..|q| - 1];
      WalkAppend(v, from, t0, p, q');
      assert (p + q)[..|p + q| - 1] == p + q';
    }
  }

  /** A queued point is reached by its walk at its minute, with its
      heuristic. */
  ghost predicate PointSound(v: Valley, start: Coords, t0: nat, end: Coords, pt: Point, w: seq<Coords>)
  {
    Walk(v, start, t0, w) && End(start, w) == pt.coords && pt.time == t0 + |w| &&
    pt.heuristic == Distance(pt.coords, end)
  }

  ghost predicate HeapSound(v: Valley, start: Coords, t0: nat, end: Coords, heap: seq<Point>, walks: seq<seq<Coords>>)
  {
    |walks| == |heap| &&
    forall i :: 0 <= i < |heap| ==> PointSound(v, start, t0, end, heap[i], walks[i])
  }

  predicate Distinct<T(==)>(s: seq<T>)
  {
    forall i, j :: 0 <= i < j < |s| ==> s[i] != s[j]
  }

  /** `visited` holds exactly the pairs ever queued, each queued once. */
  ghost predicate VisitedSound(visited: set<(Coords, nat)>, queued: seq<(Coords, nat)>)
  {
    Distinct(queued) && forall q :: q in visited <==> q in queued
  }

  /** The `blizzard_tiles` cache holds, for each minute it knows, the tiles
      some blizzard is on. */
  ghost predicate CacheSound(v: Valley, cache: map<nat, set<Coords>>)
  {
    forall t, p :: t in cache ==> (p in cache[t] <==> Stormy(v, t, p))
  }

  /** The `for (dx, dy)` loop for one popped point: every move onto an open
      tile that no blizzard is on at the next minute is marked visited, and
      pushed when it was not visited before. */
  method Expand(v: Valley, start: Coords, t0: nat, end: Coords, item: Point, ghost w: seq<Coords>,
                tiles: set<Coords>, heap: seq<Point>, visited: set<(Coords, nat)>,
                ghost walks: seq<seq<Coords>>, ghost queued: seq<(Coords, nat)>)
    returns (heap': seq<Point>, visited': set<(Coords, nat)>,
             ghost walks': seq<seq<Coords>>, ghost queued': seq<(Coords, nat)>)
    requires PointSound(v, start, t0, end, item, w)
    requires forall p :: p in tiles <==> Stormy(v, item.time + 1, p)
    requires HeapSound(v, start, t0, end, heap, walks) && VisitedSound(visited, queued)
    ensures HeapSound(v, start, t0, end, heap', walks') && VisitedSound(visited', queued')
    ensures |heap| <= |heap'| && heap'[..|heap|] == heap
    ensures |queued| <= |queued'| && queued'[..|queued|] == queued
    ensures forall j :: |heap| <= j < |heap'| ==> heap'[j].time == item.time + 1
    ensures forall k :: 0 <= k < |MOVES| && Move(v, item.coords, (item.coords.0 + MOVES[k].0, item.coords.1 + MOVES[k].1), item.time + 1) ==>
              ((item.coords.0 + MOVES[k].0, item.coords.1 + MOVES[k].1), item.time + 1) in visited'
  {
    heap', visited', walks', queued' := heap, visited, walks, queued;
    for k := 0 to |MOVES|
      invariant HeapSound(v, start, t0, end, heap', walks') && VisitedSound(visited', queued')
      invariant |heap| <= |heap'| && heap'[..|heap|] == heap
      invariant |queued| <= |queued'| && queued'[..|queued|] == queued
      invariant forall j :: |heap| <= j < |heap'| ==> heap'[j].time == item.time + 1
      invariant forall q :: q in visited ==> q in visited'
      invariant forall k' :: 0 <= k' < k && Move(v, item.coords, (item.coords.0 + MOVES[k'].0, item.coords.1 + MOVES[k'].1), item.time + 1) ==>
                  ((item.coords.0 + MOVES[k'].0, item.coords.1 + MOVES[k'].1), item.time + 1) in visited'
    {
      var (dx, dy) := MOVES[k];
      var p := (item.coords.0 + dx, item.coords.1 + dy);
      if p !in v.open {
        continue;
      }
      if p in tiles {
        continue;
      }
      var sp := Point(p, item.time + 1, Distance(p, end));
      if (sp.coords, sp.time) !in visited' {
        Push(v, start, t0, end, item, w, sp, heap', walks');
        visited' := visited' + {(sp.coords, sp.time)};
        heap' := heap' + [sp];
        walks' := walks' + [w + [p]];
        queued' := queued' + [(sp.coords, sp.time)];
      }
    }
  }

  /** Pushing the successor of a sound point keeps the heap sound. */
  lemma Push(v: Valley, start: Coords, t0: nat, end: Coords, item: Point, w: seq<Coords>, sp: Point,
             heap: seq<Point>, walks: seq<seq<Coords>>)
    requires PointSound(v, start, t0, end, item, w) && HeapSound(v, start, t0, end, heap, walks)
    requires Move(v, item.coords, sp.coords, item.time + 1) && sp.time == item.time + 1
    requires sp.heuristic == Distance(sp.coords, end)
    ensures HeapSound(v, start, t0, end, heap + [sp], walks + [w + [sp.coords]])
  {
    WalkSnoc(v, start, t0, w, sp.coords);
    var heap', walks' := heap + [sp], walks + [w + [sp.coords]];
    forall i | 0 <= i < |heap'|
      ensures PointSound(v, start, t0, end, heap'[i], walks'[i])
    {
      if i < |heap| {
        assert heap'[i] == heap[i] && walks'[i] == walks[i];
      }
    }
  }

  /** How a search ended: arrived at a minute, the queue ran dry
      (`panic!("No path found")`), the bound on pops was reached, or a
      blizzard's axis had no room (`rem_euclid` by zero panics). */
  datatype Outcome = Arrived(time: nat) | NoPath | OutOfFuel | Crash

  /** `find`, with at most `fuel` pops: an arrival minute is that of a walk
      from `start` at minute `t0` to `end`, so never earlier than the
      distance allows; every (tile, minute) pair is queued at most once. */
  method Find(v: Valley, start: Coords, t0: nat, end: Coords, fuel: nat)
    returns (r: Outcome, ghost path: seq<Coords>, ghost queued: seq<(Coords, nat)>)
    ensures r.Arrived? ==> Walk(v, start, t0, path) && End(start, path) == end && r.time == t0 + |path|
    ensures r.Arrived? ==> r.time >= t0 + Distance(start, end)
    ensures r.Crash? ==> exists i :: 0 <= i < |v.blizzards| && Divisor(v.blizzards[i], v.maxX, v.maxY) == 0
    ensures Distinct(queued) && |queued| >= 1 && queued[0] == (start, t0)
  {
    path := [];
    var cache: map<nat, set<Coords>> := map[];
    var heap := [Point(start, t0, Distance(start, end))];
    ghost var walks: seq<seq<Coords>> := [[]];
    var visited := {(start, t0)};
    queued := [(start, t0)];
    var pops := 0;
    while heap != []
      invariant pops <= fuel
      invariant HeapSound(v, start, t0, end, heap, walks) && VisitedSound(visited, queued)
      invariant CacheSound(v, cache)
      invariant |queued| >= 1 && queued[0] == (start, t0)
      decreases fuel - pops
    {
      if pops == fuel {
        return OutOfFuel, path, queued;
      }
      pops := pops + 1;
      assert Lowest(heap, MinIndex(heap));
      var i :| 0 <= i < |heap| && Lowest(heap, i);
      var item := heap[i];
      ghost var w := walks[i];
      heap, walks := RemoveAt(heap, i), RemoveAt(walks, i);
      assert PointSound(v, start, t0, end, item, w);
      if item.coords == end {
        WalkBound(v, start, t0, w);
        return Arrived(item.time), w, queued;
      }
      var tiles: set<Coords>;
      if item.time + 1 in cache {
        tiles := cache[item.time + 1];
      } else {
        var computed := BlizzardTiles(v, item.time + 1);
        if computed.None? {
          return Crash, path, queued;
        }
        tiles := computed.value;
        cache := cache[item.time + 1 := tiles];
      }
      ghost var before := queued;
      heap, visited, walks, queued := Expand(v, start, t0, end, item, w, tiles, heap, visited, walks, queued);
      assert queued[0] == before[..|before|][0];
    }
    return NoPath, path, queued;
  }

  /** The expedition starts next to the top-left corner and ends next to
      the bottom-right one. */
  function Entrance(): Coords
  {
    (1, 0)
  }

  function Exit(v: Valley): Coords
  {
    (v.maxX - 1, v.maxY)
  }

  /** `part_one`: `None` where the map does not read; an arrival is the
      length of a walk from the entrance at minute 0 to the exit. */
  method PartOne(input: string, fuel: nat) returns (r: Option<Outcome>, ghost path: seq<Coords>)
    ensures r.None? <==> !AllKnown(Lines(input))
    ensures r.Some? && r.value.Arrived? ==>
              var v := Described(Lines(input));
              Walk(v, Entrance(), 0, path) && End(Entrance(), path) == Exit(v) && r.value.time == |path|
  {
    path := [];
    var valley := ParseInput(input);
    if valley.None? {
      return None, path;
    }
    var v := valley.value;
    var outcome, p, _ := Find(v, Entrance(), 0, Exit(v), fuel);
    return Some(outcome), p;
  }

  /** There, back and there again make one walk, of at least three
      crossings of the distance. */
  lemma {:induction false} Legs(v: Valley, start: Coords, end: Coords, t1: nat, t2: nat,
                                p1: seq<Coords>, p2: seq<Coords>, p3: seq<Coords>)
    requires Walk(v, start, 0, p1) && End(start, p1) == end && t1 == |p1|
    requires Walk(v, end, t1, p2) && End(end, p2) == start && t2 == t1 + |p2|
    requires Walk(v, start, t2, p3) && End(start, p3) == end
    ensures Walk(v, start, 0, p1 + p2 + p3) && End(start, p1 + p2 + p3) == end
    ensures |p1 + p2 + p3| >= 3 * Distance(start, end)
  {
    WalkAppend(v, start, 0, p1, p2);
    WalkAppend(v, start, 0, p1 + p2, p3);
    WalkBound(v, start, 0, p1);
    WalkBound(v, end, |p1|, p2);
    WalkBound(v, start, |p1| + |p2|, p3);
    assert Distance(end, start) == Distance(start, end);
  }

  /** `part_two`: there, back, and there again, each leg leaving when the
      previous one arrived; the answer is the last arrival, never before
      three crossings of the distance. A leg that does not arrive ends the
      search with its outcome. */
  method PartTwo(input: string, fuel: nat) returns (r: Option<Outcome>, ghost path: seq<Coords>)
    ensures r.None? <==> !AllKnown(Lines(input))
    ensures r.Some? && r.value.Arrived? ==>
              var v := Described(Lines(input));
              Walk(v, Entrance(), 0, path) && End(Entrance(), path) == Exit(v) && r.value.time == |path| &&
              r.value.time >= 3 * Distance(Entrance(), Exit(v))
  {
    path := [];
    var valley := ParseInput(input);
    if valley.None? {
      return None, path;
    }
    var v := valley.value;
    var start, end := Entrance(), Exit(v);
    var there, p1, _ := Find(v, start, 0, end, fuel);
    if !there.Arrived? {
      return Some(there), path;
    }
    var back, p2, _ := Find(v, end, there.time, start, fuel);
    if !back.Arrived? {
      return Some(back), path;
    }
    var again, p3, _ := Find(v, start, back.time, end, fuel);
    if !again.Arrived? {
      return Some(again), path;
    }
    path := p1 + p2 + p3;
    assert Walk(v, start, 0, p1);
    assert End(start, p1) == end;
    assert there.time == |p1|;
    assert Walk(v, end, there.time, p2);
    assert End(end, p2) == start;
    assert back.time == there.time + |p2|;
    assert Walk(v, start, back.time, p3);
    assert End(start, p3) == end;
    Legs(v, start, end, there.time, back.time, p1, p2, p3);
    return Some(again), path;
  }
}
