/** Day 17: `find_min_path`, the best-first search over (position,
    direction, run) states. A walk is a sequence of directions taken from
    the top-left block facing right; the search only ever records costs of
    walks the rule allows, so the cost it returns is the heat loss of such
    a walk to the bottom-right block. */
module Day17Search {
  import opened Common
  import opened Grids
  import opened Day17

  /** The heap entry, fields in the order the derived ordering compares
      them. */
  datatype State = State(f: nat, g: nat, dir: Direction, run: nat, pos: (nat, nat))

  /** `state_key`: position, direction and run. */
  type Key = ((nat, nat), Direction, nat)

  type Rule = (Direction, Direction, nat) -> bool

  function KeyOf(s: State): Key
  {
    (s.pos, s.dir, s.run)
  }

  predicate Inside(city: City, p: (nat, nat))
    requires Rect(city)
  {
    p.0 < |city| && p.1 < |city[0]|
  }

  /** The bottom-right block. */
  function Goal(city: City): (r: (nat, nat))
    requires Rect(city)
    ensures Inside(city, r)
  {
    (|city| - 1, |city[0]| - 1)
  }

  /** `manhattan_distance` to the goal. */
  function Manhattan(city: City, p: (nat, nat)): nat
    requires Rect(city) && Inside(city, p)
  {
    (|city| - 1 - p.0) + (|city[0]| - 1 - p.1)
  }

  /** The order the derived `Ord` gives directions: as declared. */
  function Rank(d: Direction): nat
  {
    match d
    case Up => 0
    case Down => 1
    case Left => 2
    case Right => 3
  }

  /** The derived `Ord` of `State`: field by field. */
  predicate Le(a: State, b: State)
  {
    a.f < b.f || (a.f == b.f &&
    (a.g < b.g || (a.g == b.g &&
    (Rank(a.dir) < Rank(b.dir) || (a.dir == b.dir &&
    (a.run < b.run || (a.run == b.run &&
    (a.pos.0 < b.pos.0 || (a.pos.0 == b.pos.0 && a.pos.1 <= b.pos.1)))))))))
  }

  lemma RankInjective(a: Direction, b: Direction)
    ensures Rank(a) == Rank(b) ==> a == b
  {
  }

  /** The order is total and transitive. */
  lemma LeTotal(a: State, b: State)
    ensures Le(a, b) || Le(b, a)
  {
    RankInjective(a.dir, b.dir);
  }

  /** Where `BinaryHeap<Reverse<State>>::pop` takes from: a least entry. */
  function MinIndex(heap: seq<State>): (r: nat)
    requires heap != []
    ensures r < |heap| && forall j :: 0 <= j < |heap| ==> Le(heap[r], heap[j])
  {
    if |heap| == 1 then 0
    else
      var m := 1 + MinIndex(heap[1..]);
      assert forall j :: 1 <= j < |heap| ==> heap[j] == heap[1..][j - 1];
      LeTotal(heap[0], heap[m]);
      if Le(heap[0], heap[m]) then 0 else m
  }

  /** `s` without its `i`-th element. */
  function RemoveAt<T>(s: seq<T>, i: nat): (r: seq<T>)
    requires i < |s|
    ensures |r| == |s| - 1
    ensures forall j :: 0 <= j < |r| ==> r[j] == s[if j < i then j else j + 1]
  {
    s[..i] + s[i + 1..]
  }

  /** The start: the top-left block, facing right, no moves made. */
  function StartKey(): Key
  {
    ((0, 0), Right, 0)
  }

  /** One move of the search: the rule must allow it, it must not leave the
      map, the run counts moves in one direction, and the heat loss of the
      block entered is added. */
  function Step(city: City, valid: Rule, k: Key, cost: nat, d: Direction): (r: Option<(Key, nat)>)
    requires Rect(city) && Inside(city, k.0)
    ensures r.Some? ==> Inside(city, r.value.0.0) && r.value.0.1 == d
  {
    var (dy, dx) := Delta(d);
    var (pos, prev, run) := k;
    if !valid(prev, d, run) then None
    else if (dy == -1 && pos.0 == 0) || (dx == -1 && pos.1 == 0) ||
            (dy == 1 && pos.0 == |city| - 1) || (dx == 1 && pos.1 == |city[0]| - 1) then None
    else
      var next: (nat, nat) := (pos.0 + dy, pos.1 + dx);
      var moves := if d == prev then run + 1 else 1;
      Some(((next, d, moves), cost + city[next.0][next.1]))
  }

  /** Where a walk ends and what it costs, if the rule allows every move
      and it stays on the map. */
  function Follow(city: City, valid: Rule, walk: seq<Direction>): (r: Option<(Key, nat)>)
    requires Rect(city)
    ensures r.Some? ==> Inside(city, r.value.0.0)
  {
    if walk == [] then Some((StartKey(), 0))
    else
      match Follow(city, valid, walk[..|walk| - 1])
      case None => None
      case Some((k, c)) => Step(city, valid, k, c, walk[|walk| - 1])
  }

  /** A move is taken exactly when the rule allows it and the block one
      step in its direction is on the map; the run is reset to one by a
      turn and grows by one going straight; the heat loss of the block
      entered is added. */
  lemma StepMeaning(city: City, valid: Rule, k: Key, cost: nat, d: Direction)
    requires Rect(city) && Inside(city, k.0)
    ensures var y, x := k.0.0 + Delta(d).0, k.0.1 + Delta(d).1;
            Step(city, valid, k, cost, d).Some? <==>
              valid(k.1, d, k.2) && 0 <= y < |city| && 0 <= x < |city[0]|
    ensures var y, x := k.0.0 + Delta(d).0, k.0.1 + Delta(d).1;
            Step(city, valid, k, cost, d).Some? ==>
              0 <= y < |city| && 0 <= x < |city[0]| &&
              Step(city, valid, k, cost, d).value ==
                (((y as nat, x as nat), d, if d == k.1 then k.2 + 1 else 1), cost + city[y][x])
  {
    match d
    case Up =>
    case Down =>
    case Left =>
    case Right =>
  }

  /** Under part one's rule no walk ever makes more than three moves in a
      line. */
  lemma {:induction false} CrucibleRuns(city: City, walk: seq<Direction>)
    requires Rect(city) && Follow(city, CrucibleRule, walk).Some?
    ensures Follow(city, CrucibleRule, walk).value.0.2 <= 3
    ensures walk != [] ==> 1 <= Follow(city, CrucibleRule, walk).value.0.2
    decreases |walk|
  {
    if walk != [] {
      CrucibleRuns(city, walk[..|walk| - 1]);
    }
  }

  /** Under part two's rule no walk ever makes more than ten moves in a
      line, and every turn comes after at least four. */
  lemma {:induction false} UltraRuns(city: City, walk: seq<Direction>)
    requires Rect(city) && Follow(city, UltraRule, walk).Some?
    ensures Follow(city, UltraRule, walk).value.0.2 <= 10
    ensures walk != [] ==> 1 <= Follow(city, UltraRule, walk).value.0.2
    ensures forall j :: 0 < j < |walk| && walk[j] != walk[j - 1] ==>
              Follow(city, UltraRule, walk[..j]).Some? && Follow(city, UltraRule, walk[..j]).value.0.2 >= 4
    decreases |walk|
  {
    if walk != [] {
      var init := walk[..|walk| - 1];
      UltraRuns(city, init);
      forall j | 0 < j < |walk| && walk[j] != walk[j - 1]
        ensures Follow(city, UltraRule, walk[..j]).Some? && Follow(city, UltraRule, walk[..j]).value.0.2 >= 4
      {
        if j < |walk| - 1 {
          assert walk[..j] == init[..j];
          assert init[j] == walk[j] && init[j - 1] == walk[j - 1];
        } else {
          assert walk[..j] == init;
          assert Follow(city, UltraRule, init).value.0.1 == walk[j - 1];
        }
      }
    }
  }

  /** The entry for a reached key. */
  function Entry(city: City, k: Key, cost: nat): State
    requires Rect(city) && Inside(city, k.0)
  {
    State(cost + Manhattan(city, k.0), cost, k.1, k.2, k.0)
  }

  /** What `dist.entry(key).or_insert(usize::MAX)` reads. */
  function Known(dist: map<Key, nat>, k: Key): nat
  {
    if k in dist then dist[k] else U64_MAX
  }

  /** Every heap entry is reached by its walk, with the A* estimate, and
      its key is recorded at no more than its cost. */
  ghost predicate HeapSound(city: City, valid: Rule, dist: map<Key, nat>, heap: seq<State>, walks: seq<seq<Direction>>)
    requires Rect(city)
  {
    |walks| == |heap| &&
    forall i :: 0 <= i < |heap| ==> EntrySound(city, valid, dist, heap[i], walks[i])
  }

  /** One heap entry: reached by its walk at its cost, recorded at no more
      than that cost. */
  ghost predicate EntrySound(city: City, valid: Rule, dist: map<Key, nat>, s: State, w: seq<Direction>)
    requires Rect(city)
  {
    Follow(city, valid, w).Some? &&
    Follow(city, valid, w).value == (KeyOf(s), s.g) &&
    s == Entry(city, KeyOf(s), s.g) &&
    KeyOf(s) in dist && dist[KeyOf(s)] <= s.g && s.g < U64_MAX
  }

  /** Every recorded cost below `usize::MAX` is the cost of a walk to its
      key. */
  ghost predicate DistSound(city: City, valid: Rule, dist: map<Key, nat>, walks: map<Key, seq<Direction>>)
    requires Rect(city)
  {
    forall k :: k in dist ==>
      dist[k] <= U64_MAX &&
      (dist[k] < U64_MAX ==> k in walks && Follow(city, valid, walks[k]) == Some((k, dist[k])))
  }

  /** An allowed move that stays on the map reaches the next block. */
  lemma StepTaken(city: City, valid: Rule, k: Key, cost: nat, d: Direction, next: (nat, nat), moves: nat)
    requires Rect(city) && Inside(city, k.0) && Inside(city, next) && valid(k.1, d, k.2)
    requires next.0 == k.0.0 + Delta(d).0 && next.1 == k.0.1 + Delta(d).1
    requires moves == if d == k.1 then k.2 + 1 else 1
    ensures Step(city, valid, k, cost, d) == Some(((next, d, moves), cost + city[next.0][next.1]))
  {
  }

  /** A walk extended by one allowed move. */
  lemma {:induction false} FollowSnoc(city: City, valid: Rule, walk: seq<Direction>, d: Direction)
    requires Rect(city) && Follow(city, valid, walk).Some?
    ensures Follow(city, valid, walk + [d]) ==
            Step(city, valid, Follow(city, valid, walk).value.0, Follow(city, valid, walk).value.1, d)
  {
    assert (walk + [d])[..|walk|] == walk;
  }

  /** Recorded costs that only go down keep the heap sound. */
  lemma HeapSoundLower(city: City, valid: Rule, dist: map<Key, nat>, dist': map<Key, nat>,
                       heap: seq<State>, walks: seq<seq<Direction>>)
    requires Rect(city) && HeapSound(city, valid, dist, heap, walks)
    requires forall k :: k in dist ==> k in dist' && dist'[k] <= dist[k]
    ensures HeapSound(city, valid, dist', heap, walks)
  {
    forall i | 0 <= i < |heap|
      ensures EntrySound(city, valid, dist', heap[i], walks[i])
    {
      assert EntrySound(city, valid, dist, heap[i], walks[i]);
    }
  }

  /** Pushing a reached entry whose key is recorded at its cost. */
  lemma HeapSoundPush(city: City, valid: Rule, dist: map<Key, nat>, heap: seq<State>, walks: seq<seq<Direction>>,
                      s: State, w: seq<Direction>)
    requires Rect(city) && HeapSound(city, valid, dist, heap, walks)
    requires EntrySound(city, valid, dist, s, w)
    ensures HeapSound(city, valid, dist, heap + [s], walks + [w])
  {
    var heap', walks' := heap + [s], walks + [w];
    forall i | 0 <= i < |heap'|
      ensures EntrySound(city, valid, dist, heap'[i], walks'[i])
    {
      if i < |heap| {
        assert heap'[i] == heap[i] && walks'[i] == walks[i];
      }
    }
  }

  /** Recording a reached cost, with its walk. */
  lemma DistSoundSet(city: City, valid: Rule, dist: map<Key, nat>, walks: map<Key, seq<Direction>>,
                     k: Key, c: nat, w: seq<Direction>)
    requires Rect(city) && DistSound(city, valid, dist, walks)
    requires Follow(city, valid, w) == Some((k, c)) && c < U64_MAX
    ensures DistSound(city, valid, dist[k := c], walks[k := w])
  {
  }

  /** `or_insert(usize::MAX)`: recording the sentinel needs no walk. */
  lemma DistSoundSentinel(city: City, valid: Rule, dist: map<Key, nat>, walks: map<Key, seq<Direction>>, k: Key)
    requires Rect(city) && DistSound(city, valid, dist, walks)
    ensures DistSound(city, valid, dist[k := Known(dist, k)], walks)
  {
  }

  /** The move from `state` in direction `d`, when the rule allows it and
      it stays on the map, has its key recorded at no more than its cost. */
  ghost predicate Relaxed(city: City, valid: Rule, state: State, dist: map<Key, nat>, d: Direction)
    requires Rect(city) && Inside(city, state.pos)
  {
    var next := Step(city, valid, KeyOf(state), state.g, d);
    next.Some? ==> next.value.0 in dist && dist[next.value.0] <= next.value.1
  }

  const DIRECTIONS: seq<Direction> := [Up, Down, Left, Right]

  /** The `for next_dir` loop for one popped state: every allowed move that
      stays on the map is relaxed; its key ends up recorded at no more than
      its cost, recorded costs only go down, and a state is pushed only when
      its cost is below the one recorded before. */
  method Expand(city: City, valid: Rule, state: State, ghost walk: seq<Direction>,
                dist: map<Key, nat>, heap: seq<State>,
                ghost heapWalks: seq<seq<Direction>>, ghost distWalks: map<Key, seq<Direction>>)
    returns (dist': map<Key, nat>, heap': seq<State>,
             ghost heapWalks': seq<seq<Direction>>, ghost distWalks': map<Key, seq<Direction>>)
    requires Rect(city)
    requires Follow(city, valid, walk) == Some((KeyOf(state), state.g)) && Inside(city, state.pos)
    requires HeapSound(city, valid, dist, heap, heapWalks) && DistSound(city, valid, dist, distWalks)
    ensures HeapSound(city, valid, dist', heap', heapWalks') && DistSound(city, valid, dist', distWalks')
    ensures forall k :: k in dist ==> k in dist' && dist'[k] <= dist[k]
    ensures |heap| <= |heap'| && heap'[..|heap|] == heap
    ensures forall j :: |heap| <= j < |heap'| ==> heap'[j].g < Known(dist, KeyOf(heap'[j]))
    ensures forall d: Direction :: Relaxed(city, valid, state, dist', d)
  {
    dist', heap', heapWalks', distWalks' := dist, heap, heapWalks, distWalks;
    for i := 0 to |DIRECTIONS|
      invariant HeapSound(city, valid, dist', heap', heapWalks') && DistSound(city, valid, dist', distWalks')
      invariant forall k :: k in dist ==> k in dist' && dist'[k] <= dist[k]
      invariant |heap| <= |heap'| && heap'[..|heap|] == heap
      invariant forall j :: |heap| <= j < |heap'| ==> heap'[j].g < Known(dist, KeyOf(heap'[j])) && Rank(heap'[j].dir) < i
      invariant forall d: Direction :: Rank(d) < i ==> Relaxed(city, valid, state, dist', d)
    {
      var d := DIRECTIONS[i];
      assert Rank(d) == i;
      ghost var before, heapBefore := dist', heap';
      heapWalks', distWalks', dist', heap' := Relax(city, valid, state, walk, d, dist', heap', heapWalks', distWalks');
      forall j | |heap| <= j < |heap'|
        ensures heap'[j].g < Known(dist, KeyOf(heap'[j])) && Rank(heap'[j].dir) < i + 1
      {
        if j < |heapBefore| {
          assert heap'[j] == heapBefore[j];
        } else {
          assert j == |heapBefore|;
          var k := KeyOf(heap'[j]);
          assert k in before ==> before[k] <= U64_MAX;
          assert Known(before, k) <= Known(dist, k);
        }
      }
    }
  }

  /** One direction of that loop: only the key of direction `d` changes,
      and only downward; it ends up recorded at no more than the move's
      cost; the state is pushed only when its cost is below the recorded
      one. */
  method Relax(city: City, valid: Rule, state: State, ghost walk: seq<Direction>, d: Direction,
               dist: map<Key, nat>, heap: seq<State>,
               ghost heapWalks: seq<seq<Direction>>, ghost distWalks: map<Key, seq<Direction>>)
    returns (ghost heapWalks': seq<seq<Direction>>, ghost distWalks': map<Key, seq<Direction>>,
             dist': map<Key, nat>, heap': seq<State>)
    requires Rect(city)
    requires Follow(city, valid, walk) == Some((KeyOf(state), state.g)) && Inside(city, state.pos)
    requires HeapSound(city, valid, dist, heap, heapWalks) && DistSound(city, valid, dist, distWalks)
    ensures HeapSound(city, valid, dist', heap', heapWalks') && DistSound(city, valid, dist', distWalks')
    ensures forall k :: k in dist ==> k in dist' && dist'[k] <= dist[k]
    ensures forall k :: k in dist && k.1 != d ==> dist'[k] == dist[k]
    ensures forall k :: k in dist' && k !in dist ==> k.1 == d
    ensures |heap| <= |heap'| <= |heap| + 1 && heap'[..|heap|] == heap
    ensures |heap'| > |heap| ==> heap'[|heap|].dir == d && heap'[|heap|].g < Known(dist, KeyOf(heap'[|heap|]))
    ensures Relaxed(city, valid, state, dist', d)
  {
    heapWalks', distWalks', dist', heap' := heapWalks, distWalks, dist, heap;
    if !valid(state.dir, d, state.run) {
      return;
    }
    var (dy, dx) := Delta(d);
    if (dy == -1 && state.pos.0 == 0) || (dx == -1 && state.pos.1 == 0) ||
       (dy == 1 && state.pos.0 == |city| - 1) || (dx == 1 && state.pos.1 == |city[0]| - 1) {
      return;
    }
    var next: (nat, nat) := (state.pos.0 + dy, state.pos.1 + dx);
    var moves: nat := if d == state.dir then state.run + 1 else 1;
    var g: nat := state.g + city[next.0][next.1];
    var f: nat := g + Manhattan(city, next);
    var nextState := State(f, g, d, moves, next);
    StepTaken(city, valid, KeyOf(state), state.g, d, next, moves);
    FollowSnoc(city, valid, walk, d);
    heapWalks', distWalks', dist', heap' := Record(city, valid, dist, heap, heapWalks, distWalks, nextState, walk + [d]);
  }

  /** The bookkeeping of one relaxed move to `s`: `or_insert(usize::MAX)`,
      then a lower cost is recorded and the state pushed. Only the key of
      `s` changes, and only downward. */
  method Record(city: City, valid: Rule, dist: map<Key, nat>, heap: seq<State>,
                ghost heapWalks: seq<seq<Direction>>, ghost distWalks: map<Key, seq<Direction>>,
                s: State, ghost w: seq<Direction>)
    returns (ghost heapWalks': seq<seq<Direction>>, ghost distWalks': map<Key, seq<Direction>>,
             dist': map<Key, nat>, heap': seq<State>)
    requires Rect(city) && Inside(city, s.pos)
    requires HeapSound(city, valid, dist, heap, heapWalks) && DistSound(city, valid, dist, distWalks)
    requires Follow(city, valid, w) == Some((KeyOf(s), s.g)) && s == Entry(city, KeyOf(s), s.g)
    ensures HeapSound(city, valid, dist', heap', heapWalks') && DistSound(city, valid, dist', distWalks')
    ensures dist'.Keys == dist.Keys + {KeyOf(s)}
    ensures forall k :: k in dist ==> dist'[k] <= dist[k]
    ensures forall k :: k in dist && k != KeyOf(s) ==> dist'[k] == dist[k]
    ensures dist'[KeyOf(s)] <= s.g
    ensures heap' == heap || (heap' == heap + [s] && s.g < Known(dist, KeyOf(s)))
  {
    heapWalks', distWalks', dist', heap' := heapWalks, distWalks, dist, heap;
    var key := KeyOf(s);
    var current: nat := if key in dist' then dist'[key] else U64_MAX;
    DistSoundSentinel(city, valid, dist', distWalks', key);
    HeapSoundLower(city, valid, dist', dist'[key := current], heap', heapWalks');
    dist' := dist'[key := current];
    if s.g < current {
      HeapSoundLower(city, valid, dist', dist'[key := s.g], heap', heapWalks');
      DistSoundSet(city, valid, dist', distWalks', key, s.g, w);
      dist' := dist'[key := s.g];
      distWalks' := distWalks'[key := w];
      assert EntrySound(city, valid, dist', s, w);
      HeapSoundPush(city, valid, dist', heap', heapWalks', s, w);
      heap' := heap' + [s];
      heapWalks' := heapWalks' + [w];
    }
  }

  /** How the search ended: the goal popped at a recorded cost, the heap
      ran dry (`panic!("no path found")`), or the bound on pops was
      reached. */
  datatype Search = Found(cost: nat) | NoPath | OutOfFuel

  /** `find_min_path`, with at most `fuel` pops: when it finds a cost,
      that is the heat loss of a walk the rule allows from the top-left to
      the bottom-right block. */
  method FindMinPath(city: City, valid: Rule, fuel: nat) returns (r: Search, ghost walk: seq<Direction>)
    requires Rect(city)
    ensures r.Found? ==> Reaches(city, valid, walk, r.cost)
  {
    walk := [];
    var goal := Goal(city);
    var start := Entry(city, StartKey(), 0);
    var dist: map<Key, nat> := map[KeyOf(start) := 0];
    var heap := [start];
    ghost var heapWalks: seq<seq<Direction>> := [[]];
    ghost var distWalks: map<Key, seq<Direction>> := map[KeyOf(start) := []];
    var pops := 0;
    while heap != []
      invariant pops <= fuel
      invariant HeapSound(city, valid, dist, heap, heapWalks) && DistSound(city, valid, dist, distWalks)
      decreases fuel - pops
    {
      if pops == fuel {
        return OutOfFuel, walk;
      }
      pops := pops + 1;
      var i := MinIndex(heap);
      var state := heap[i];
      ghost var stateWalk := heapWalks[i];
      heap := RemoveAt(heap, i);
      heapWalks := RemoveAt(heapWalks, i);
      var key := KeyOf(state);
      if state.pos == goal {
        walk := distWalks[key];
        return Found(dist[key]), walk;
      }
      dist, heap, heapWalks, distWalks := Expand(city, valid, state, stateWalk, dist, heap, heapWalks, distWalks);
    }
    return NoPath, walk;
  }

  /** `walk` is allowed by the rule, stays on the map, ends at the
      bottom-right block and loses `cost` heat. */
  ghost predicate Reaches(city: City, valid: Rule, walk: seq<Direction>, cost: nat)
    requires Rect(city)
  {
    Follow(city, valid, walk).Some? && Follow(city, valid, walk).value.0.0 == Goal(city) &&
    Follow(city, valid, walk).value.1 == cost
  }

  /** `part_one`: the search under the crucible rule; `None` where the input
      does not read. */
  method PartOne(input: string, fuel: nat) returns (r: Option<Search>)
    ensures Parse(input).None? <==> r.None?
    ensures r.Some? && r.value.Found? ==> exists walk :: Reaches(Parse(input).value, CrucibleRule, walk, r.value.cost)
  {
    var city := Parse(input);
    if city.None? {
      return None;
    }
    var s, walk := FindMinPath(city.value, CrucibleRule, fuel);
    r := Some(s);
    if s.Found? {
      assert Reaches(city.value, CrucibleRule, walk, s.cost);
    }
  }

  /** `part_two`: the search under the ultra crucible rule. */
  method PartTwo(input: string, fuel: nat) returns (r: Option<Search>)
    ensures Parse(input).None? <==> r.None?
    ensures r.Some? && r.value.Found? ==> exists walk :: Reaches(Parse(input).value, UltraRule, walk, r.value.cost)
  {
    var city := Parse(input);
    if city.None? {
      return None;
    }
    var s, walk := FindMinPath(city.value, UltraRule, fuel);
    r := Some(s);
    if s.Found? {
      assert Reaches(city.value, UltraRule, walk, s.cost);
    }
  }
}
