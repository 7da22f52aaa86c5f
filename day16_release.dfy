/** Day 16: `part_one` and `part_two`, the most pressure that can be
    released by opening valves, walking the shortest distances that
    `build_paths` found. */
module Day16Release {
  import opened Common
  import opened Day16
  import opened Day16Paths
  import opened Day16Explore

  /** What both searches work from: the valves by name, the distances
      `build_paths` found from each valve, and the number of each valve in
      the bit mask of opened valves. */
  datatype Cave = Cave(valves: Valves, paths: map<string, map<string, nat>>, index: map<string, nat>)

  /** A cave the searches walk without a panic: every valve found from a
      valve is a valve with an entry of its own, and every number is a bit
      of a `u64`. */
  predicate Ready(c: Cave)
  {
    c.index.Keys == c.valves.Keys && (forall n :: n in c.index ==> c.index[n] < 64) &&
    forall n :: n in c.paths ==> c.paths[n].Keys <= c.valves.Keys && forall t :: t in c.paths[n] ==> t in c.paths
  }

  /** Walking to `target` and opening it, with `rem` minutes left once it
      is open and `gain` the pressure it releases in them. */
  datatype Opening = Opening(target: string, rem: int, gain: int)

  /** Opening `t`, walked to from `node` with `time` minutes left. */
  function Go(c: Cave, node: string, time: int, t: string): Opening
    requires node in c.paths && t in c.paths[node] && t in c.valves
  {
    var rem := time - c.paths[node][t] - 1;
    Opening(t, rem, rem * c.valves[t].flow)
  }

  /** `m` is an opening the loop over `paths.get(node)` keeps: one that
      ends in time, of a valve not opened yet. */
  ghost predicate Move(c: Cave, node: string, time: int, mask: set<nat>, m: Opening)
  {
    node in c.paths && m.target in c.paths[node] && m.target in c.valves && m.target in c.index &&
    m == Go(c, node, time, m.target) && m.rem >= 0 && c.index[m.target] !in mask
  }

  lemma SubsetCard(a: set<string>, b: set<string>)
    requires a <= b
    ensures |a| <= |b|
  {
    assert b == a + (b - a);
  }

  /** The `for (target, move_costs) in paths.get(node).unwrap()` loop of
      either part, in the order of the hash map: the openings it keeps,
      each once. */
  method Openings(c: Cave, node: string, time: int, mask: set<nat>) returns (ms: seq<Opening>)
    requires Ready(c) && node in c.paths
    ensures forall m :: m in ms <==> Move(c, node, time, mask, m)
    ensures forall k :: 0 <= k < |ms| ==> ms[k].target in c.index
    ensures |ms| < |c.valves.Keys| + 1
  {
    var targets := c.paths[node];
    var todo := targets.Keys;
    ms := [];
    while todo != {}
      invariant todo <= targets.Keys
      invariant forall m :: m in ms <==> Move(c, node, time, mask, m) && m.target !in todo
      invariant |ms| + |todo| <= |targets.Keys|
      decreases |todo|
    {
      var t :| t in todo;
      var rem := time - targets[t] - 1;
      var gain := rem * c.valves[t].flow;
      ghost var ms0 := ms;
      if rem >= 0 && c.index[t] !in mask {
        ms := ms + [Opening(t, rem, gain)];
      }
      todo := todo - {t};
      forall m ensures m in ms <==> Move(c, node, time, mask, m) && m.target !in todo {
        assert m in ms <==> m in ms0 || (m == Opening(t, rem, gain) && rem >= 0 && c.index[t] !in mask);
      }
    }
    forall k | 0 <= k < |ms|
      ensures ms[k].target in c.index
    {
      assert ms[k] in ms;
    }
    SubsetCard(targets.Keys, c.valves.Keys);
  }

  /** A state of `part_one`'s search: where the walker stands, the
      pressure the valves it opened release in all, the minutes left, and
      the numbers of the opened valves (the set bits of the `u64` mask). */
  datatype Walker = Walker(node: string, total: int, budget: int, mask: set<nat>)

  /** `AA`, nothing released, 30 minutes, nothing open. */
  const START_ONE: Walker := Walker("AA", 0, 30, {})

  /** The state `part_one` pushes for an opening. */
  function Walked(c: Cave, s: Walker, m: Opening): Walker
    requires m.target in c.index
  {
    Walker(m.target, s.total + m.gain, m.rem, s.mask + {c.index[m.target]})
  }

  /** `x` is a state `part_one` pushes after popping `s`. */
  ghost predicate StepOne(c: Cave, s: Walker, x: Walker)
  {
    exists m :: Move(c, s.node, s.budget, s.mask, m) && x == Walked(c, s, m)
  }

  ghost function NextOne(c: Cave): (Walker, Walker) -> bool
  {
    (s, x) => StepOne(c, s, x)
  }

  function ClockOne(s: Walker): nat
  {
    if s.budget >= 0 then s.budget else 0
  }

  function TotalOne(s: Walker): int
  {
    s.total
  }

  /** Every move spends at least a minute. */
  lemma DescendingOne(c: Cave)
    ensures Descending(NextOne(c), ClockOne)
  {
    forall s, x | NextOne(c)(s, x)
      ensures ClockOne(x) < ClockOne(s)
    {
      var m :| Move(c, s.node, s.budget, s.mask, m) && x == Walked(c, s, m);
    }
  }

  /** Every state on the stack stands at a valve with an entry of its
      own. */
  predicate OnMap(c: Cave, stack: seq<Walker>)
  {
    forall i :: 0 <= i < |stack| ==> stack[i].node in c.paths
  }

  /** The states pushed after popping the top of `stack` are its
      successors, all of them, and stand at valves with entries. */
  lemma ChildrenOne(c: Cave, stack: seq<Walker>, ms: seq<Opening>, cs: seq<Walker>)
    requires Ready(c) && stack != [] && OnMap(c, stack)
    requires forall m :: m in ms <==> Move(c, stack[|stack| - 1].node, stack[|stack| - 1].budget, stack[|stack| - 1].mask, m)
    requires |cs| == |ms| && forall k :: 0 <= k < |ms| ==> ms[k].target in c.index && cs[k] == Walked(c, stack[|stack| - 1], ms[k])
    ensures Children(NextOne(c), ClockOne, stack[|stack| - 1], cs)
    ensures OnMap(c, stack[..|stack| - 1] + cs)
  {
    var s := stack[|stack| - 1];
    var rest := stack[..|stack| - 1];
    forall k | 0 <= k < |cs|
      ensures NextOne(c)(s, cs[k]) && ClockOne(cs[k]) < ClockOne(s) && cs[k].node in c.paths
    {
      assert ms[k] in ms;
    }
    forall x | NextOne(c)(s, x)
      ensures x in cs
    {
      var m :| Move(c, s.node, s.budget, s.mask, m) && x == Walked(c, s, m);
      assert m in ms;
      var k :| 0 <= k < |ms| && ms[k] == m;
      assert cs[k] == x;
    }
    forall i | 0 <= i < |rest + cs|
      ensures (rest + cs)[i].node in c.paths
    {
      if i < |rest| {
        assert (rest + cs)[i] == stack[i];
      } else {
        assert (rest + cs)[i] == cs[i - |rest|];
      }
    }
  }

  /** The states pushed for the openings `ms`. */
  function PushesOne(c: Cave, s: Walker, ms: seq<Opening>): (cs: seq<Walker>)
    requires forall k :: 0 <= k < |ms| ==> ms[k].target in c.index
    ensures |cs| == |ms| && forall k :: 0 <= k < |ms| ==> cs[k] == Walked(c, s, ms[k])
  {
    seq(|ms|, k requires 0 <= k < |ms| => Walked(c, s, ms[k]))
  }

  /** One turn of the loop of `part_one`, popping the top of `stack`. */
  lemma TurnOne(c: Cave, stack: seq<Walker>, ms: seq<Opening>, runs: seq<seq<Walker>>, top: seq<Walker>, best: int,
               top': seq<Walker>, best': int)
    requires Ready(c) && stack != [] && OnMap(c, stack)
    requires Exploring(NextOne(c), ClockOne, TotalOne, START_ONE, stack, runs, top, best)
    requires stack[|stack| - 1].total > best ==> best' == stack[|stack| - 1].total && top' == runs[|stack| - 1]
    requires stack[|stack| - 1].total <= best ==> best' == best && top' == top
    requires forall m :: m in ms <==> Move(c, stack[|stack| - 1].node, stack[|stack| - 1].budget, stack[|stack| - 1].mask, m)
    requires forall k :: 0 <= k < |ms| ==> ms[k].target in c.index
    requires |ms| < |c.valves.Keys| + 1
    ensures OnMap(c, stack[..|stack| - 1] + PushesOne(c, stack[|stack| - 1], ms))
    ensures Exploring(NextOne(c), ClockOne, TotalOne, START_ONE, stack[..|stack| - 1] + PushesOne(c, stack[|stack| - 1], ms),
                      runs[..|stack| - 1] + Extend(runs[|stack| - 1], PushesOne(c, stack[|stack| - 1], ms)), top', best')
    ensures Weight(ClockOne, |c.valves.Keys| + 1, stack[..|stack| - 1] + PushesOne(c, stack[|stack| - 1], ms)) <
            Weight(ClockOne, |c.valves.Keys| + 1, stack)
  {
    var s := stack[|stack| - 1];
    var cs := PushesOne(c, s, ms);
    ChildrenOne(c, stack, ms, cs);
    assert Raised(TotalOne, s, runs[|stack| - 1], top, best, top', best');
    Advance(NextOne(c), ClockOne, TotalOne, START_ONE, stack, cs, runs, top, best, top', best');
    PopLighter(ClockOne, |c.valves.Keys| + 1, stack, cs);
  }

  /** The `while let Some(..) = open.pop()` loop of `part_one`: `best` is
      the largest total of any state reachable from the start, and `top`
      a run to a state that has it. */
  method SearchOne(c: Cave) returns (best: int, ghost top: seq<Walker>)
    requires Ready(c) && "AA" in c.paths
    ensures forall p: seq<Walker> :: IsRun(NextOne(c), START_ONE, p) ==> p[|p| - 1].total <= best
    ensures IsRun(NextOne(c), START_ONE, top) && top[|top| - 1].total == best
  {
    var open := [START_ONE];
    best := 0;
    top := [START_ONE];
    ghost var runs := [[START_ONE]];
    ghost var next := NextOne(c);
    ghost var b := |c.valves.Keys| + 1;
    Begin(next, ClockOne, TotalOne, START_ONE);
    while open != []
      invariant Exploring(next, ClockOne, TotalOne, START_ONE, open, runs, top, best)
      invariant OnMap(c, open)
      decreases Weight(ClockOne, b, open)
    {
      ghost var stack, best0, top0 := open, best, top;
      var s := open[|open| - 1];
      if s.total > best {
        best := s.total;
        top := runs[|open| - 1];
      }
      open := open[..|open| - 1];
      var ms := Openings(c, s.node, s.budget, s.mask);
      TurnOne(c, stack, ms, runs, top0, best0, top, best);
      open := open + PushesOne(c, s, ms);
      runs := runs[..|stack| - 1] + Extend(runs[|stack| - 1], PushesOne(c, s, ms));
    }
    DescendingOne(c);
    Finish(next, ClockOne, TotalOne, START_ONE, runs, top, best);
  }

  /** A state of `part_two`'s search: where the human and the elephant
      stand and the minutes each has left once there, the pressure
      released in all, and the numbers of the opened valves. */
  datatype Pair = Pair(human: string, hTime: int, elephant: string, eTime: int, total: int, mask: set<nat>)

  /** Both at `AA` with 26 minutes, nothing released, nothing open. */
  const START_TWO: Pair := Pair("AA", 26, "AA", 26, 0, {})

  /** `ts`: the later of the two arrivals, the one with more minutes
      left. */
  function Turn(s: Pair): int
  {
    if s.hTime >= s.eTime then s.hTime else s.eTime
  }

  /** The human moves when its arrival is the later one, ties included;
      otherwise the elephant does. */
  function Mover(s: Pair): string
  {
    if Turn(s) == s.hTime then s.human else s.elephant
  }

  /** The state `part_two` pushes for an opening by the one that moves. */
  function Moved(c: Cave, s: Pair, m: Opening): Pair
    requires m.target in c.index
  {
    if Turn(s) == s.hTime then
      Pair(m.target, m.rem, s.elephant, s.eTime, s.total + m.gain, s.mask + {c.index[m.target]})
    else
      Pair(s.human, s.hTime, m.target, m.rem, s.total + m.gain, s.mask + {c.index[m.target]})
  }

  /** `x` is a state `part_two` pushes after popping `s`. */
  ghost predicate StepTwo(c: Cave, s: Pair, x: Pair)
  {
    exists m :: Move(c, Mover(s), Turn(s), s.mask, m) && x == Moved(c, s, m)
  }

  ghost function NextTwo(c: Cave): (Pair, Pair) -> bool
  {
    (s, x) => StepTwo(c, s, x)
  }

  function ClockTwo(s: Pair): nat
  {
    (if s.hTime >= 0 then s.hTime else 0) + (if s.eTime >= 0 then s.eTime else 0)
  }

  function TotalTwo(s: Pair): int
  {
    s.total
  }

  /** Every move spends at least a minute of the one that moves. */
  lemma DescendingTwo(c: Cave)
    ensures Descending(NextTwo(c), ClockTwo)
  {
    forall s, x | NextTwo(c)(s, x)
      ensures ClockTwo(x) < ClockTwo(s)
    {
      var m :| Move(c, Mover(s), Turn(s), s.mask, m) && x == Moved(c, s, m);
    }
  }

  /** Both stand at valves with an entry of their own. */
  predicate Placed(c: Cave, s: Pair)
  {
    s.human in c.paths && s.elephant in c.paths
  }

  /** Every state on the stack is placed. */
  predicate AllPlaced(c: Cave, stack: seq<Pair>)
  {
    forall i :: 0 <= i < |stack| ==> Placed(c, stack[i])
  }

  /** The states pushed after popping the top of `stack` are its
      successors, all of them, and are placed. */
  lemma ChildrenTwo(c: Cave, stack: seq<Pair>, ms: seq<Opening>, cs: seq<Pair>)
    requires Ready(c) && stack != [] && AllPlaced(c, stack)
    requires forall m :: m in ms <==> Move(c, Mover(stack[|stack| - 1]), Turn(stack[|stack| - 1]), stack[|stack| - 1].mask, m)
    requires |cs| == |ms| && forall k :: 0 <= k < |ms| ==> ms[k].target in c.index && cs[k] == Moved(c, stack[|stack| - 1], ms[k])
    ensures Children(NextTwo(c), ClockTwo, stack[|stack| - 1], cs)
    ensures AllPlaced(c, stack[..|stack| - 1] + cs)
  {
    var s := stack[|stack| - 1];
    var rest := stack[..|stack| - 1];
    assert Placed(c, s);
    forall k | 0 <= k < |cs|
      ensures NextTwo(c)(s, cs[k]) && ClockTwo(cs[k]) < ClockTwo(s) && Placed(c, cs[k])
    {
      assert ms[k] in ms;
    }
    forall x | NextTwo(c)(s, x)
      ensures x in cs
    {
      var m :| Move(c, Mover(s), Turn(s), s.mask, m) && x == Moved(c, s, m);
      assert m in ms;
      var k :| 0 <= k < |ms| && ms[k] == m;
      assert cs[k] == x;
    }
    forall i | 0 <= i < |rest + cs|
      ensures Placed(c, (rest + cs)[i])
    {
      if i < |rest| {
        assert (rest + cs)[i] == stack[i];
      } else {
        assert (rest + cs)[i] == cs[i - |rest|];
      }
    }
  }

  /** The states pushed for the openings `ms`. */
  function PushesTwo(c: Cave, s: Pair, ms: seq<Opening>): (cs: seq<Pair>)
    requires forall k :: 0 <= k < |ms| ==> ms[k].target in c.index
    ensures |cs| == |ms| && forall k :: 0 <= k < |ms| ==> cs[k] == Moved(c, s, ms[k])
  {
    seq(|ms|, k requires 0 <= k < |ms| => Moved(c, s, ms[k]))
  }

  /** One turn of the loop of `part_two`, popping the top of `stack`. */
  lemma TurnTwo(c: Cave, stack: seq<Pair>, ts: int, position: string, ms: seq<Opening>, runs: seq<seq<Pair>>,
                top: seq<Pair>, best: int, top': seq<Pair>, best': int)
    requires Ready(c) && stack != [] && AllPlaced(c, stack)
    requires ts == if stack[|stack| - 1].hTime >= stack[|stack| - 1].eTime then stack[|stack| - 1].hTime else stack[|stack| - 1].eTime
    requires position == if ts == stack[|stack| - 1].hTime then stack[|stack| - 1].human else stack[|stack| - 1].elephant
    requires Exploring(NextTwo(c), ClockTwo, TotalTwo, START_TWO, stack, runs, top, best)
    requires stack[|stack| - 1].total > best ==> best' == stack[|stack| - 1].total && top' == runs[|stack| - 1]
    requires stack[|stack| - 1].total <= best ==> best' == best && top' == top
    requires forall m :: m in ms <==> Move(c, position, ts, stack[|stack| - 1].mask, m)
    requires forall k :: 0 <= k < |ms| ==> ms[k].target in c.index
    requires |ms| < |c.valves.Keys| + 1
    ensures AllPlaced(c, stack[..|stack| - 1] + PushesTwo(c, stack[|stack| - 1], ms))
    ensures Exploring(NextTwo(c), ClockTwo, TotalTwo, START_TWO, stack[..|stack| - 1] + PushesTwo(c, stack[|stack| - 1], ms),
                      runs[..|stack| - 1] + Extend(runs[|stack| - 1], PushesTwo(c, stack[|stack| - 1], ms)), top', best')
    ensures Weight(ClockTwo, |c.valves.Keys| + 1, stack[..|stack| - 1] + PushesTwo(c, stack[|stack| - 1], ms)) <
            Weight(ClockTwo, |c.valves.Keys| + 1, stack)
  {
    var s := stack[|stack| - 1];
    var cs := PushesTwo(c, s, ms);
    assert ts == Turn(s) && position == Mover(s);
    ChildrenTwo(c, stack, ms, cs);
    assert Raised(TotalTwo, s, runs[|stack| - 1], top, best, top', best');
    Advance(NextTwo(c), ClockTwo, TotalTwo, START_TWO, stack, cs, runs, top, best, top', best');
    PopLighter(ClockTwo, |c.valves.Keys| + 1, stack, cs);
  }

  /** The `while let Some(..) = open.pop()` loop of `part_two`: `best` is
      the largest total of any state reachable from the start, and `top`
      a run to a state that has it. */
  method SearchTwo(c: Cave) returns (best: int, ghost top: seq<Pair>)
    requires Ready(c) && "AA" in c.paths
    ensures forall p: seq<Pair> :: IsRun(NextTwo(c), START_TWO, p) ==> p[|p| - 1].total <= best
    ensures IsRun(NextTwo(c), START_TWO, top) && top[|top| - 1].total == best
  {
    var open := [START_TWO];
    best := 0;
    top := [START_TWO];
    ghost var runs := [[START_TWO]];
    ghost var next := NextTwo(c);
    ghost var b := |c.valves.Keys| + 1;
    Begin(next, ClockTwo, TotalTwo, START_TWO);
    while open != []
      invariant Exploring(next, ClockTwo, TotalTwo, START_TWO, open, runs, top, best)
      invariant AllPlaced(c, open)
      decreases Weight(ClockTwo, b, open)
    {
      ghost var stack, best0, top0 := open, best, top;
      var s := open[|open| - 1];
      if s.total > best {
        best := s.total;
        top := runs[|open| - 1];
      }
      open := open[..|open| - 1];
      var ts := if s.hTime >= s.eTime then s.hTime else s.eTime;
      var position := if ts == s.hTime then s.human else s.elephant;
      var ms := Openings(c, position, ts, s.mask);
      TurnTwo(c, stack, ts, position, ms, runs, top0, best0, top, best);
      open := open + PushesTwo(c, s, ms);
      runs := runs[..|stack| - 1] + Extend(runs[|stack| - 1], PushesTwo(c, s, ms));
    }
    DescendingTwo(c);
    Finish(next, ClockTwo, TotalTwo, START_TWO, runs, top, best);
  }

  /** What either part does before its search panics on: a line that does
      not parse, or a table of valves that `Stuck` describes. */
  ghost predicate Panics(input: string)
  {
    ParseInput(input).None? || Stuck(Table(ParseInput(input).value))
  }

  /** A table of valves the start of either part panics on: a search of
      `build_paths` that steps out of the table, more than 64 valves for
      the `u64` mask, or no entry for `AA` in the distances
      (`paths.get("AA").unwrap()`), which is missing exactly when `AA` is
      not a valve or reaches no valve with a positive flow rate. */
  ghost predicate Stuck(valves: Valves)
  {
    (exists n :: n in valves && Leaks(valves, n)) || |valves| > 64 ||
    "AA" !in valves || !exists t :: t in valves && valves[t].flow > 0 && Reaches(valves, "AA", t)
  }

  /** `paths` is what `build_paths` returns for `valves`: the distances
      found from each valve, an entry only for a valve from which
      something was found. */
  ghost predicate Found(valves: Valves, paths: map<string, map<string, nat>>)
  {
    paths.Keys <= valves.Keys && (forall n :: n in paths ==> paths[n] != map[]) &&
    (forall n :: n in valves ==> Distances(valves, n, Get(paths, n)))
  }

  /** `c` is what the start of either part builds from `input`: the table of
      its valves, the distances `build_paths` finds from them, and a
      numbering of the valves in some hash order. */
  ghost predicate Surveyed(input: string, c: Cave)
  {
    ParseInput(input).Some? && c.valves == Table(ParseInput(input).value) && Found(c.valves, c.paths) &&
    c.index.Keys == c.valves.Keys && Numbering(c.index, |c.valves|)
  }

  /** A valve reaches itself by the walk that does not move. */
  lemma SelfReach(valves: Valves, t: string)
    requires t in valves
    ensures Reaches(valves, t, t)
  {
    assert Walk(valves, t, [t], t);
  }

  /** `AA` has an entry in the distances exactly when it is a valve that
      reaches a valve with a positive flow rate. */
  lemma EntryAA(valves: Valves, paths: map<string, map<string, nat>>)
    requires Found(valves, paths)
    ensures "AA" in paths <==> "AA" in valves && exists t :: t in valves && valves[t].flow > 0 && Reaches(valves, "AA", t)
  {
    if "AA" in valves {
      assert Distances(valves, "AA", Get(paths, "AA"));
      if "AA" in paths {
        var t :| t in paths["AA"];
        assert t in Get(paths, "AA");
      }
    }
  }

  /** Every valve found from a valve finds itself, so it has an entry. */
  lemma FoundClosed(valves: Valves, paths: map<string, map<string, nat>>)
    requires Found(valves, paths)
    ensures forall n, t :: n in paths && t in paths[n] ==> t in paths
  {
    forall n, t | n in paths && t in paths[n]
      ensures t in paths
    {
      assert Distances(valves, n, Get(paths, n));
      assert t in Get(paths, n);
      SelfReach(valves, t);
      assert Distances(valves, t, Get(paths, t));
      assert t in Get(paths, t);
    }
  }

  /** The start panics exactly when `build_paths` does, when there are more
      than 64 valves, or when `AA` has no entry. */
  lemma StuckExactly(valves: Valves, paths: Option<map<string, map<string, nat>>>)
    requires paths.None? <==> exists n :: n in valves && Leaks(valves, n)
    requires paths.Some? ==> Found(valves, paths.value)
    ensures Stuck(valves) <==> paths.None? || |valves| > 64 || "AA" !in paths.value
  {
    if paths.Some? {
      EntryAA(valves, paths.value);
    }
  }

  /** A cave built by the start of either part, with at most 64 valves, is
      one the searches walk without a panic. */
  lemma CaveReady(c: Cave)
    requires Found(c.valves, c.paths) && c.index.Keys == c.valves.Keys && Numbering(c.index, |c.valves|)
    requires |c.valves| <= 64
    ensures Ready(c)
  {
    FoundClosed(c.valves, c.paths);
    assert forall n :: n in c.index ==> c.index[n] < 64;
  }

  /** What both parts do with the table of valves before they search:
      `build_paths`, number the valves, `assert!(valves.len() <= 64)` and
      `paths.get("AA").unwrap()`. `None` stands for a panic. */
  method Prepare(valves: Valves) returns (r: Option<Cave>)
    requires Named(valves)
    ensures r.None? <==> Stuck(valves)
    ensures r.Some? ==> r.value.valves == valves && Found(valves, r.value.paths)
    ensures r.Some? ==> r.value.index.Keys == valves.Keys && Numbering(r.value.index, |valves|)
    ensures r.Some? ==> Ready(r.value) && "AA" in r.value.paths
  {
    var paths := BuildPaths(valves);
    StuckExactly(valves, paths);
    if paths.None? {
      return None;
    }
    var index := ValveIndex(valves);
    if |valves| > 64 || "AA" !in paths.value {
      return None;
    }
    r := Some(Cave(valves, paths.value, index));
    CaveReady(r.value);
  }

  /** The start shared by `part_one` and `part_two`: parse the input, table
      the valves and `Prepare` them. `None` stands for a panic. */
  method Survey(input: string) returns (r: Option<Cave>)
    ensures r.None? <==> Panics(input)
    ensures r.Some? ==> Surveyed(input, r.value) && Ready(r.value) && "AA" in r.value.paths
  {
    var vs := ParseInput(input);
    if vs.None? {
      return None;
    }
    TableNamed(vs.value);
    r := Prepare(Table(vs.value));
  }

  /** `part_one`: the most pressure one walker opening valves for 30
      minutes from `AA` can release; `None` when the start panics. */
  method PartOne(input: string) returns (r: Option<int>, ghost c: Cave)
    ensures r.None? <==> Panics(input)
    ensures r.Some? ==> Surveyed(input, c)
    ensures r.Some? ==> forall p: seq<Walker> :: IsRun(NextOne(c), START_ONE, p) ==> p[|p| - 1].total <= r.value
    ensures r.Some? ==> exists p: seq<Walker> :: IsRun(NextOne(c), START_ONE, p) && p[|p| - 1].total == r.value
  {
    var cave := Survey(input);
    if cave.None? {
      return None, Cave(map[], map[], map[]);
    }
    c := cave.value;
    var best, top := SearchOne(cave.value);
    r := Some(best);
  }

  /** `part_two`: the most pressure a walker and an elephant opening valves
      for 26 minutes from `AA` can release; `None` when the start panics. */
  method PartTwo(input: string) returns (r: Option<int>, ghost c: Cave)
    ensures r.None? <==> Panics(input)
    ensures r.Some? ==> Surveyed(input, c)
    ensures r.Some? ==> forall p: seq<Pair> :: IsRun(NextTwo(c), START_TWO, p) ==> p[|p| - 1].total <= r.value
    ensures r.Some? ==> exists p: seq<Pair> :: IsRun(NextTwo(c), START_TWO, p) && p[|p| - 1].total == r.value
  {
    var cave := Survey(input);
    if cave.None? {
      return None, Cave(map[], map[], map[]);
    }
    c := cave.value;
    var best, top := SearchTwo(cave.value);
    r := Some(best);
  }
}
