/** Day 16: the depth-first exploration both parts of the valve puzzle
    run. A stack starts with one state; each state popped updates the best
    value seen and pushes its successors; the loop ends when the stack is
    empty. Nothing is ever marked visited, so every chain of successors
    from the start is explored. This module holds what does not depend on
    the kind of state: chains of successors, the record of what is
    explored, and why the stack empties when successors run on a smaller
    clock. */
module Day16Explore {

  /** `p` is a chain of states from `start`, each a successor of the one
      before it. */
  ghost predicate IsRun<S>(next: (S, S) -> bool, start: S, p: seq<S>)
  {
    |p| >= 1 && p[0] == start && forall k :: 0 <= k < |p| - 1 ==> Step(next, p, k)
  }

  /** The state at `k + 1` is a successor of the state at `k`. */
  ghost predicate Step<S>(next: (S, S) -> bool, p: seq<S>, k: nat)
    requires k + 1 < |p|
  {
    next(p[k], p[k + 1])
  }

  /** Every successor runs on a smaller clock than its state. */
  ghost predicate Descending<S(!new)>(next: (S, S) -> bool, clock: S -> nat)
  {
    forall s, c :: next(s, c) ==> clock(c) < clock(s)
  }

  /** Every state that can be reached from `s` without passing through a
      state of `pending` has a value of at most `best`. */
  ghost predicate Cleared<S(!new)>(next: (S, S) -> bool, clock: S -> nat, value: S -> int,
                                   s: S, best: int, pending: set<S>)
    decreases clock(s)
  {
    s in pending ||
    (value(s) <= best &&
     forall c {:trigger Cleared(next, clock, value, c, best, pending)} ::
       next(s, c) && clock(c) < clock(s) ==> Cleared(next, clock, value, c, best, pending))
  }

  /** A run extended by a successor of its last state. */
  lemma RunSnoc<S>(next: (S, S) -> bool, start: S, p: seq<S>, c: S)
    requires IsRun(next, start, p) && next(p[|p| - 1], c)
    ensures IsRun(next, start, p + [c])
  {
    var q := p + [c];
    forall k | 0 <= k < |q| - 1
      ensures Step(next, q, k)
    {
      if k < |p| - 1 {
        assert Step(next, p, k);
        assert q[k] == p[k] && q[k + 1] == p[k + 1];
      }
    }
  }

  /** Popping `s`, raising `best` to at least its value and pushing all its
      successors keeps everything outside the stack no better than
      `best`. */
  lemma {:induction false} ClearedPop<S(!new)>(next: (S, S) -> bool, clock: S -> nat, value: S -> int, x: S,
                                               best: int, best': int, pending: set<S>, s: S, pending': set<S>)
    requires Cleared(next, clock, value, x, best, pending + {s})
    requires best <= best' && value(s) <= best' && pending <= pending'
    requires forall c :: next(s, c) ==> c in pending'
    ensures Cleared(next, clock, value, x, best', pending')
    decreases clock(x)
  {
    if x !in pending {
      if x == s {
        assert forall c :: next(s, c) && clock(c) < clock(s) ==> Cleared(next, clock, value, c, best', pending');
      } else {
        forall c | next(x, c) && clock(c) < clock(x)
          ensures Cleared(next, clock, value, c, best', pending')
        {
          ClearedPop(next, clock, value, c, best, best', pending, s, pending');
        }
      }
    }
  }

  /** Once nothing is pending, every state of every run is no better than
      `best`. */
  lemma {:induction false} ClearedRun<S(!new)>(next: (S, S) -> bool, clock: S -> nat, value: S -> int,
                                               start: S, best: int, p: seq<S>)
    requires Descending(next, clock) && Cleared(next, clock, value, start, best, {})
    requires IsRun(next, start, p)
    ensures value(p[|p| - 1]) <= best
    decreases |p|
  {
    if |p| > 1 {
      var q := p[1..];
      assert Step(next, p, 0);
      forall k | 0 <= k < |q| - 1
        ensures Step(next, q, k)
      {
        assert Step(next, p, k + 1);
      }
      ClearedRun(next, clock, value, p[1], best, q);
    }
  }

  /** `x` times `y`, by repeated addition, so that the solver sees no
      product of two unknowns. */
  function Mul(x: nat, y: nat): nat
  {
    if x == 0 then 0 else y + Mul(x - 1, y)
  }

  lemma {:induction false} MulMono(a: nat, b: nat, x: nat)
    requires a <= b
    ensures Mul(a, x) <= Mul(b, x)
    decreases b
  {
    if a < b {
      MulMono(a, b - 1, x);
    }
  }

  function Pow(b: nat, k: nat): (r: nat)
    ensures b >= 1 ==> r >= 1
  {
    if k == 0 then 1 else if b == 0 then 0 else
      var p := Pow(b, k - 1);
      MulMono(1, b, p);
      Mul(b, p)
  }

  lemma {:induction false} PowMono(b: nat, j: nat, k: nat)
    requires b >= 1 && j <= k
    ensures Pow(b, j) <= Pow(b, k)
    decreases k
  {
    if j < k {
      PowMono(b, j, k - 1);
      MulMono(1, b, Pow(b, k - 1));
    }
  }

  /** The weight of a stack: `b` to the power of each state's clock. A
      state whose successors are fewer than `b`, each on a smaller clock,
      outweighs them all. */
  function Weight<S>(clock: S -> nat, b: nat, stack: seq<S>): nat
  {
    if stack == [] then 0 else Weight(clock, b, stack[..|stack| - 1]) + Pow(b, clock(stack[|stack| - 1]))
  }

  lemma {:induction false} WeightAppend<S>(clock: S -> nat, b: nat, xs: seq<S>, ys: seq<S>)
    ensures Weight(clock, b, xs + ys) == Weight(clock, b, xs) + Weight(clock, b, ys)
    decreases |ys|
  {
    if ys == [] {
      assert xs + ys == xs;
    } else {
      var init := ys[..|ys| - 1];
      WeightAppend(clock, b, xs, init);
      assert (xs + ys)[..|xs + ys| - 1] == xs + init;
    }
  }

  lemma {:induction false} WeightBound<S>(clock: S -> nat, b: nat, cs: seq<S>, t: nat)
    requires b >= 1 && forall k :: 0 <= k < |cs| ==> clock(cs[k]) <= t
    ensures Weight(clock, b, cs) <= Mul(|cs|, Pow(b, t))
    decreases |cs|
  {
    if cs != [] {
      var init := cs[..|cs| - 1];
      assert forall k :: 0 <= k < |init| ==> init[k] == cs[k];
      WeightBound(clock, b, init, t);
      PowMono(b, clock(cs[|cs| - 1]), t);
    }
  }

  /** Replacing a popped state by fewer than `b` successors, each on a
      smaller clock, makes the stack lighter. */
  lemma PopWeight<S>(clock: S -> nat, b: nat, rest: seq<S>, s: S, cs: seq<S>)
    requires |cs| < b && forall k :: 0 <= k < |cs| ==> clock(cs[k]) < clock(s)
    ensures Weight(clock, b, rest + cs) < Weight(clock, b, rest + [s])
  {
    WeightAppend(clock, b, rest, cs);
    WeightAppend(clock, b, rest, [s]);
    assert Weight(clock, b, [s]) == Pow(b, clock(s)) by {
      assert [s][..0] == [];
    }
    if cs != [] {
      var t := clock(s) - 1;
      WeightBound(clock, b, cs, t);
      MulMono(|cs|, b - 1, Pow(b, t));
    }
  }

  function Members<S>(stack: seq<S>): set<S>
  {
    set x | x in stack
  }

  /** Each state on the stack is the end of a run from `start`, kept in
      `runs` at the same place. */
  ghost predicate Stacked<S>(next: (S, S) -> bool, start: S, stack: seq<S>, runs: seq<seq<S>>)
  {
    |runs| == |stack| &&
    forall i :: 0 <= i < |stack| ==> Ends(next, start, stack, runs, i)
  }

  /** The run at `i` leads from `start` to the state at `i`. */
  ghost predicate Ends<S>(next: (S, S) -> bool, start: S, stack: seq<S>, runs: seq<seq<S>>, i: nat)
    requires i < |stack| && i < |runs|
  {
    IsRun(next, start, runs[i]) && runs[i][|runs[i]| - 1] == stack[i]
  }

  /** The runs to the successors: the run to their state, one step
      longer. */
  function Extend<S>(p: seq<S>, cs: seq<S>): (r: seq<seq<S>>)
    ensures |r| == |cs| && forall k :: 0 <= k < |cs| ==> r[k] == p + [cs[k]]
  {
    seq(|cs|, k requires 0 <= k < |cs| => p + [cs[k]])
  }

  /** Popping the top of the stack and pushing successors `cs` of it
      keeps each state on the stack at the end of its run. */
  lemma PopStacked<S>(next: (S, S) -> bool, start: S, stack: seq<S>, cs: seq<S>, runs: seq<seq<S>>)
    requires stack != [] && Stacked(next, start, stack, runs)
    requires forall k :: 0 <= k < |cs| ==> next(stack[|stack| - 1], cs[k])
    ensures IsRun(next, start, runs[|stack| - 1]) && runs[|stack| - 1][|runs[|stack| - 1]| - 1] == stack[|stack| - 1]
    ensures Stacked(next, start, stack[..|stack| - 1] + cs, runs[..|stack| - 1] + Extend(runs[|stack| - 1], cs))
  {
    var n := |stack| - 1;
    var rest, runs' := stack[..n], runs[..n] + Extend(runs[n], cs);
    var stack' := rest + cs;
    assert Ends(next, start, stack, runs, n);
    forall i | 0 <= i < |stack'|
      ensures Ends(next, start, stack', runs', i)
    {
      if i < n {
        assert Ends(next, start, stack, runs, i);
        assert runs'[i] == runs[i] && stack'[i] == stack[i];
      } else {
        RunSnoc(next, start, runs[n], cs[i - n]);
      }
    }
  }

  /** Popping the top of the stack, raising `best` to at least its value
      and pushing all its successors keeps everything outside the stack no
      better than `best`. */
  lemma PopCleared<S(!new)>(next: (S, S) -> bool, clock: S -> nat, value: S -> int, start: S,
                            stack: seq<S>, cs: seq<S>, best: int, best': int)
    requires stack != [] && Cleared(next, clock, value, start, best, Members(stack))
    requires best <= best' && value(stack[|stack| - 1]) <= best'
    requires forall x :: next(stack[|stack| - 1], x) ==> x in cs
    ensures Cleared(next, clock, value, start, best', Members(stack[..|stack| - 1] + cs))
  {
    var rest, s := stack[..|stack| - 1], stack[|stack| - 1];
    assert stack == rest + [s];
    assert Members(stack) == Members(rest) + {s};
    ClearedPop(next, clock, value, start, best, best', Members(rest), s, Members(rest + cs));
  }

  /** Popping the top of the stack and pushing fewer than `b` states on a
      smaller clock makes the stack lighter. */
  lemma PopLighter<S>(clock: S -> nat, b: nat, stack: seq<S>, cs: seq<S>)
    requires stack != [] && |cs| < b
    requires forall k :: 0 <= k < |cs| ==> clock(cs[k]) < clock(stack[|stack| - 1])
    ensures Weight(clock, b, stack[..|stack| - 1] + cs) < Weight(clock, b, stack)
  {
    var rest, s := stack[..|stack| - 1], stack[|stack| - 1];
    assert stack == rest + [s];
    PopWeight(clock, b, rest, s, cs);
  }

  /** What the loop keeps: each state on the stack ends a run, `top` is a
      run to a state whose value is `best`, and every state reachable
      from the start without passing through the stack is no better than
      `best`. */
  ghost predicate Exploring<S(!new)>(next: (S, S) -> bool, clock: S -> nat, value: S -> int, start: S,
                                     stack: seq<S>, runs: seq<seq<S>>, top: seq<S>, best: int)
  {
    Stacked(next, start, stack, runs) &&
    IsRun(next, start, top) && value(top[|top| - 1]) == best &&
    Cleared(next, clock, value, start, best, Members(stack))
  }

  /** The loop starts with the start state on the stack and its value as
      the best. */
  lemma Begin<S(!new)>(next: (S, S) -> bool, clock: S -> nat, value: S -> int, start: S)
    ensures Exploring(next, clock, value, start, [start], [[start]], [start], value(start))
  {
    assert Members([start]) == {start};
  }

  /** `cs` holds successors of `s`, each on a smaller clock, and all of
      them. */
  ghost predicate Children<S(!new)>(next: (S, S) -> bool, clock: S -> nat, s: S, cs: seq<S>)
  {
    (forall k :: 0 <= k < |cs| ==> next(s, cs[k]) && clock(cs[k]) < clock(s)) &&
    (forall x :: next(s, x) ==> x in cs)
  }

  /** Popping `s`, whose run is `run`, raises the best to its value and
      makes `run` the run to the best when the value is larger, and keeps
      both otherwise. */
  ghost predicate Raised<S>(value: S -> int, s: S, run: seq<S>, top: seq<S>, best: int, top': seq<S>, best': int)
  {
    (value(s) > best ==> best' == value(s) && top' == run) &&
    (value(s) <= best ==> best' == best && top' == top)
  }

  lemma Assemble<S(!new)>(next: (S, S) -> bool, clock: S -> nat, value: S -> int, start: S,
                          stack: seq<S>, runs: seq<seq<S>>, top: seq<S>, best: int)
    requires Stacked(next, start, stack, runs)
    requires IsRun(next, start, top) && value(top[|top| - 1]) == best
    requires Cleared(next, clock, value, start, best, Members(stack))
    ensures Exploring(next, clock, value, start, stack, runs, top, best)
  {
  }

  /** The best and the run to it after popping `s`. */
  lemma TopAfter<S>(next: (S, S) -> bool, value: S -> int, start: S, s: S, run: seq<S>,
                    top: seq<S>, best: int, top': seq<S>, best': int)
    requires IsRun(next, start, top) && value(top[|top| - 1]) == best
    requires IsRun(next, start, run) && run[|run| - 1] == s
    requires Raised(value, s, run, top, best, top', best')
    ensures IsRun(next, start, top') && value(top'[|top'| - 1]) == best'
  {
  }

  /** One turn of the loop, for the state on top of `stack`: the best is
      raised to its value when that is larger, and its successors are
      pushed. `PopLighter` shows the stack gets lighter. */
  lemma Advance<S(!new)>(next: (S, S) -> bool, clock: S -> nat, value: S -> int, start: S,
                         stack: seq<S>, cs: seq<S>, runs: seq<seq<S>>, top: seq<S>, best: int,
                         top': seq<S>, best': int)
    requires stack != [] && Exploring(next, clock, value, start, stack, runs, top, best)
    requires Raised(value, stack[|stack| - 1], runs[|stack| - 1], top, best, top', best')
    requires Children(next, clock, stack[|stack| - 1], cs)
    ensures Exploring(next, clock, value, start, stack[..|stack| - 1] + cs,
                      runs[..|stack| - 1] + Extend(runs[|stack| - 1], cs), top', best')
  {
    PopStacked(next, start, stack, cs, runs);
    PopCleared(next, clock, value, start, stack, cs, best, best');
    TopAfter(next, value, start, stack[|stack| - 1], runs[|stack| - 1], top, best, top', best');
    Assemble(next, clock, value, start, stack[..|stack| - 1] + cs, runs[..|stack| - 1] + Extend(runs[|stack| - 1], cs),
             top', best');
  }

  /** When the stack is empty, every state of every run is no better than
      `best`. */
  lemma Finish<S(!new)>(next: (S, S) -> bool, clock: S -> nat, value: S -> int, start: S,
                        runs: seq<seq<S>>, top: seq<S>, best: int)
    requires Descending(next, clock) && Exploring(next, clock, value, start, [], runs, top, best)
    ensures forall p :: IsRun(next, start, p) ==> value(p[|p| - 1]) <= best
  {
    assert Members<S>([]) == {};
    forall p | IsRun(next, start, p)
      ensures value(p[|p| - 1]) <= best
    {
      ClearedRun(next, clock, value, start, best, p);
    }
  }
}
