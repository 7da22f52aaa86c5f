/** Day 19: the worklist that runs whole boxes of parts through the
    workflows (`find_accepting_ranges`), and the two answers. */
module Day19Ranges {
  import opened Common
  import opened Day19
  import opened Day19Flow

  /** `InputState`: a box of parts waiting at step `step` of a workflow. */
  datatype State = State(range: Box, step: nat, workflow: string)

  /** How the worklist ends: emptied, a panic (a missing workflow, or a
      step index past the end of one), or still running when the fuel is
      spent. */
  datatype Status = Finished | Stuck | OutOfFuel

  function InitialBox(): Box
  {
    Box(Span(1, 4000), Span(1, 4000), Span(1, 4000), Span(1, 4000))
  }

  /** The `apply_action` closure: accept the box, drop it, or queue it at
      the start of another workflow. */
  function Apply(action: Action, range: Box): (seq<Box>, seq<State>)
  {
    match action
    case Accept => ([range], [])
    case Reject => ([], [])
    case Send(w) => ([], [State(range, 0, w)])
  }

  /** One piece of `eval_range`: a passing piece gets the step's action, a
      failing one waits at the next step of the same workflow. */
  function Piece(action: Action, s: State, piece: (Box, bool)): (seq<Box>, seq<State>)
  {
    if piece.1 then Apply(action, piece.0)
    else ([], [State(piece.0, s.step + 1, s.workflow)])
  }

  /** The pieces in order, their accepted boxes and queued states joined. */
  function Pieces(action: Action, s: State, ps: seq<(Box, bool)>): (seq<Box>, seq<State>)
    decreases |ps|
  {
    if ps == [] then ([], [])
    else
      var (a1, q1) := Piece(action, s, ps[0]);
      var (a2, q2) := Pieces(action, s, ps[1..]);
      (a1 + a2, q1 + q2)
  }

  /** What handling a popped state adds: the accepted boxes and the states
      pushed, in push order. */
  function Handle(step: Step, s: State): (seq<Box>, seq<State>)
  {
    match step.condition
    case None => Apply(step.action, s.range)
    case Some(c) => Pieces(step.action, s, EvalRange(c, s.range))
  }

  /** The worklist run to its end: pop the last state, handle it, push
      what it yields; `fuel` bounds the number of states popped. */
  function Explore(wf: Workflows, stack: seq<State>, accepted: seq<Box>, fuel: nat): (Status, seq<Box>)
    decreases fuel
  {
    if stack == [] then (Finished, accepted)
    else if fuel == 0 then (OutOfFuel, accepted)
    else
      var s := stack[|stack| - 1];
      if s.workflow !in wf || s.step >= |wf[s.workflow]| then (Stuck, accepted)
      else
        var out := Handle(wf[s.workflow][s.step], s);
        Explore(wf, stack[..|stack| - 1] + out.1, accepted + out.0, fuel - 1)
  }

  /** `process` accepts the part, given enough fuel. */
  ghost predicate ProcessAccepts(wf: Workflows, p: Part)
  {
    exists f: nat :: ProcessFrom(wf, "in", p, f) == Accepted
  }

  /** No step before `i` of workflow `w` applies to `p`. */
  ghost predicate Earlier(wf: Workflows, w: string, i: nat, p: Part)
  {
    w in wf ==> forall j :: 0 <= j < i && j < |wf[w]| ==> !Applies(wf[w][j], p)
  }

  /** `process` brings `p` to workflow `w` after `d` workflows: from there on
      it ends as it would starting at `w`. */
  ghost predicate Leads(wf: Workflows, p: Part, w: string, d: nat)
  {
    forall f: nat :: ProcessFrom(wf, "in", p, f + d) == ProcessFrom(wf, w, p, f)
  }

  /** Every part of the state's box reaches its workflow after `d` others,
      and fails the steps before the state's step. */
  ghost predicate StateSound(wf: Workflows, s: State, d: nat)
  {
    forall p :: Contains(s.range, p) ==> Earlier(wf, s.workflow, s.step, p) && Leads(wf, p, s.workflow, d)
  }

  ghost predicate AcceptedBox(wf: Workflows, b: Box)
  {
    forall p :: Contains(b, p) ==> ProcessAccepts(wf, p)
  }

  /** What handling a state at depth `d` yields is sound: the accepted
      boxes hold only parts `process` accepts, the queued states are sound
      at their depths, and all lie inside the popped box. */
  ghost predicate Yields(wf: Workflows, s: State, d: nat, out: (seq<Box>, seq<State>))
  {
    (forall k :: 0 <= k < |out.0| ==> AcceptedBox(wf, out.0[k]) && Inside(out.0[k], s.range))
    && (forall k :: 0 <= k < |out.1| ==>
          StateSound(wf, out.1[k], NextDepth(out.1[k], d)) && Inside(out.1[k].range, s.range))
  }

  lemma {:induction false} YieldsJoin(wf: Workflows, s: State, d: nat, x: (seq<Box>, seq<State>), y: (seq<Box>, seq<State>))
    requires Yields(wf, s, d, x) && Yields(wf, s, d, y)
    ensures Yields(wf, s, d, (x.0 + y.0, x.1 + y.1))
  {
    var acc := x.0 + y.0;
    var pushed := x.1 + y.1;
    forall k | 0 <= k < |acc|
      ensures AcceptedBox(wf, acc[k]) && Inside(acc[k], s.range)
    {
      if k < |x.0| {
        assert acc[k] == x.0[k];
      } else {
        assert acc[k] == y.0[k - |x.0|];
      }
    }
    forall k | 0 <= k < |pushed|
      ensures StateSound(wf, pushed[k], NextDepth(pushed[k], d)) && Inside(pushed[k].range, s.range)
    {
      if k < |x.1| {
        assert pushed[k] == x.1[k];
      } else {
        assert pushed[k] == y.1[k - |x.1|];
      }
    }
  }

  /** A state queued at the start of a workflow is one workflow further. */
  function NextDepth(q: State, d: nat): nat
  {
    if q.step == 0 then d + 1 else d
  }

  /** A part of a sound state that passes its step: accepted when the step
      accepts, one workflow further when it sends. */
  lemma {:induction false} PassForward(wf: Workflows, s: State, d: nat, p: Part)
    requires s.workflow in wf && s.step < |wf[s.workflow]|
    requires Contains(s.range, p) && StateSound(wf, s, d)
    requires Applies(wf[s.workflow][s.step], p)
    ensures wf[s.workflow][s.step].action.Accept? ==> ProcessAccepts(wf, p)
    ensures wf[s.workflow][s.step].action.Send? ==> Leads(wf, p, wf[s.workflow][s.step].action.workflow, d + 1)
  {
    var steps := wf[s.workflow];
    StepDecides(steps, p, s.step);
    match steps[s.step].action
    case Accept =>
      assert ProcessFrom(wf, "in", p, 1 + d) == ProcessFrom(wf, s.workflow, p, 1);
    case Reject =>
    case Send(n) =>
      forall f: nat
        ensures ProcessFrom(wf, "in", p, f + (d + 1)) == ProcessFrom(wf, n, p, f)
      {
        assert ProcessFrom(wf, "in", p, (f + 1) + d) == ProcessFrom(wf, s.workflow, p, f + 1);
      }
  }

  /** A part of a sound state that fails its step moves to the next one. */
  lemma {:induction false} FailForward(wf: Workflows, s: State, p: Part)
    requires s.workflow in wf && s.step < |wf[s.workflow]|
    requires Earlier(wf, s.workflow, s.step, p)
    requires !Applies(wf[s.workflow][s.step], p)
    ensures Earlier(wf, s.workflow, s.step + 1, p)
  {
  }

  /** Applying the step's action to a box of parts that pass it yields
      accepted boxes and sound states, all inside the popped box. */
  lemma {:induction false} ApplySound(wf: Workflows, s: State, d: nat, range: Box)
    requires s.workflow in wf && s.step < |wf[s.workflow]| && StateSound(wf, s, d)
    requires Inside(range, s.range)
    requires forall p :: Contains(range, p) ==> Applies(wf[s.workflow][s.step], p)
    ensures Yields(wf, s, d, Apply(wf[s.workflow][s.step].action, range))
  {
    var action := wf[s.workflow][s.step].action;
    forall p | Contains(range, p)
      ensures action.Accept? ==> ProcessAccepts(wf, p)
      ensures action.Send? ==> Leads(wf, p, action.workflow, d + 1)
    {
      InsideContains(range, s.range, p);
      PassForward(wf, s, d, p);
    }
  }

  /** A box of parts that fail the step waits soundly at the next step. */
  lemma {:induction false} FailSound(wf: Workflows, s: State, d: nat, range: Box)
    requires s.workflow in wf && s.step < |wf[s.workflow]| && StateSound(wf, s, d)
    requires Inside(range, s.range)
    requires forall p :: Contains(range, p) ==> !Applies(wf[s.workflow][s.step], p)
    ensures StateSound(wf, State(range, s.step + 1, s.workflow), d)
  {
    forall p | Contains(range, p)
      ensures Earlier(wf, s.workflow, s.step + 1, p) && Leads(wf, p, s.workflow, d)
    {
      InsideContains(range, s.range, p);
      FailForward(wf, s, p);
    }
  }

  /** Handling pieces whose verdicts are the step's verdicts on their parts
      yields accepted boxes and sound states. */
  lemma {:induction false} PiecesSound(wf: Workflows, s: State, d: nat, c: Condition, ps: seq<(Box, bool)>)
    requires s.workflow in wf && s.step < |wf[s.workflow]| && StateSound(wf, s, d)
    requires wf[s.workflow][s.step].condition == Some(c)
    requires forall k :: 0 <= k < |ps| ==> Inside(ps[k].0, s.range)
    requires forall k, p :: 0 <= k < |ps| && Contains(ps[k].0, p) ==> ps[k].1 == Eval(c, p)
    ensures Yields(wf, s, d, Pieces(wf[s.workflow][s.step].action, s, ps))
    decreases |ps|
  {
    if ps != [] {
      var step := wf[s.workflow][s.step];
      var range := ps[0].0;
      assert Inside(range, s.range);
      if ps[0].1 {
        forall p | Contains(range, p)
          ensures Applies(step, p)
        {
          assert ps[0].1 == Eval(c, p);
        }
        ApplySound(wf, s, d, range);
      } else {
        forall p | Contains(range, p)
          ensures !Applies(step, p)
        {
          assert ps[0].1 == Eval(c, p);
        }
        FailSound(wf, s, d, range);
        var q := State(range, s.step + 1, s.workflow);
        assert NextDepth(q, d) == d;
      }
      PiecesSound(wf, s, d, c, ps[1..]);
      YieldsJoin(wf, s, d, Piece(step.action, s, ps[0]), Pieces(step.action, s, ps[1..]));
    }
  }

  /** Handling a sound state yields accepted boxes whose parts `process`
      accepts, and sound states, all inside the popped box. */
  lemma {:induction false} HandleSound(wf: Workflows, s: State, d: nat)
    requires s.workflow in wf && s.step < |wf[s.workflow]| && StateSound(wf, s, d)
    ensures Yields(wf, s, d, Handle(wf[s.workflow][s.step], s))
  {
    var step := wf[s.workflow][s.step];
    match step.condition
    case None =>
      assert Inside(s.range, s.range);
      ApplySound(wf, s, d, s.range);
    case Some(c) =>
      EvalRangeSound(c, s.range);
      var ps := EvalRange(c, s.range);
      assert forall k, p :: 0 <= k < |ps| && Contains(ps[k].0, p) ==> ps[k].1 == Eval(c, p);
      PiecesSound(wf, s, d, c, ps);
  }

  /** The worklist invariant: every queued state is sound at its depth and
      lies in the starting box; every accepted box holds only parts that
      `process` accepts and lies in the starting box. */
  ghost predicate Sound(wf: Workflows, stack: seq<State>, depths: seq<nat>, accepted: seq<Box>)
  {
    |depths| == |stack|
    && (forall k :: 0 <= k < |stack| ==> StateSound(wf, stack[k], depths[k]) && Inside(stack[k].range, InitialBox()))
    && AllAccepted(wf, accepted)
  }

  lemma {:induction false} InsideTrans(a: Box, b: Box, c: Box)
    requires Inside(a, b) && Inside(b, c)
    ensures Inside(a, c)
  {
  }

  function PushedDepths(pushed: seq<State>, d: nat): (r: seq<nat>)
    ensures |r| == |pushed| && forall i :: 0 <= i < |pushed| ==> r[i] == NextDepth(pushed[i], d)
  {
    seq(|pushed|, i requires 0 <= i < |pushed| => NextDepth(pushed[i], d))
  }

  /** Boxes inside the starting box whose parts `process` all accepts. */
  ghost predicate AllAccepted(wf: Workflows, boxes: seq<Box>)
  {
    forall k :: 0 <= k < |boxes| ==> AcceptedBox(wf, boxes[k]) && Inside(boxes[k], InitialBox())
  }

  /** One round of the worklist keeps the invariant. */
  lemma {:induction false} RoundSound(wf: Workflows, stack: seq<State>, depths: seq<nat>, accepted: seq<Box>)
    requires Sound(wf, stack, depths, accepted) && stack != []
    requires stack[|stack| - 1].workflow in wf
    requires stack[|stack| - 1].step < |wf[stack[|stack| - 1].workflow]|
    ensures var s := stack[|stack| - 1];
      var out := Handle(wf[s.workflow][s.step], s);
      Sound(wf, stack[..|stack| - 1] + out.1,
            depths[..|depths| - 1] + PushedDepths(out.1, depths[|depths| - 1]),
            accepted + out.0)
  {
    var s := stack[|stack| - 1];
    var d := depths[|depths| - 1];
    var out := Handle(wf[s.workflow][s.step], s);
    var acc, pushed := out.0, out.1;
    HandleSound(wf, s, d);
    assert Inside(s.range, InitialBox());
    forall k | 0 <= k < |acc|
      ensures Inside(acc[k], InitialBox())
    {
      InsideTrans(acc[k], s.range, InitialBox());
    }
    forall k | 0 <= k < |pushed|
      ensures Inside(pushed[k].range, InitialBox())
    {
      InsideTrans(pushed[k].range, s.range, InitialBox());
    }
  }

  /** Every box the worklist accepts lies in the starting box and holds
      only parts that `process` accepts. */
  lemma {:induction false} ExploreSound(wf: Workflows, stack: seq<State>, depths: seq<nat>, accepted: seq<Box>, fuel: nat)
    requires Sound(wf, stack, depths, accepted)
    ensures AllAccepted(wf, Explore(wf, stack, accepted, fuel).1)
    decreases fuel
  {
    if stack != [] && fuel > 0 {
      var s := stack[|stack| - 1];
      if s.workflow in wf && s.step < |wf[s.workflow]| {
        var out := Handle(wf[s.workflow][s.step], s);
        var acc, pushed := out.0, out.1;
        RoundSound(wf, stack, depths, accepted);
        var stack' := stack[..|stack| - 1] + pushed;
        var depths' := depths[..|depths| - 1] + PushedDepths(pushed, depths[|depths| - 1]);
        assert Sound(wf, stack', depths', accepted + acc);
        ExploreSound(wf, stack', depths', accepted + acc, fuel - 1);
        assert Explore(wf, stack, accepted, fuel) == Explore(wf, stack', accepted + acc, fuel - 1);
      } else {
        assert Explore(wf, stack, accepted, fuel) == (Stuck, accepted);
      }
    } else {
      assert Explore(wf, stack, accepted, fuel).1 == accepted;
    }
  }

  /** The starting state: every part starts at "in" after no workflow. */
  lemma {:induction false} InitialSound(wf: Workflows)
    ensures Sound(wf, [State(InitialBox(), 0, "in")], [0], [])
  {
  }

  /** 1 when the box holds `p`, 0 otherwise. */
  function Ind(b: Box, p: Part): nat
  {
    if Contains(b, p) then 1 else 0
  }

  /** How many of the boxes hold `p`. */
  function Count(boxes: seq<Box>, p: Part): nat
    decreases |boxes|
  {
    if boxes == [] then 0 else Ind(boxes[0], p) + Count(boxes[1..], p)
  }

  lemma {:induction false} CountAppend(a: seq<Box>, b: seq<Box>, p: Part)
    ensures Count(a + b, p) == Count(a, p) + Count(b, p)
    decreases |a|
  {
    if a == [] {
      assert a + b == b;
    } else {
      assert (a + b)[1..] == a[1..] + b;
      CountAppend(a[1..], b, p);
    }
  }

  /** A part held by two different boxes is counted at least twice. */
  lemma {:induction false} CountTwo(boxes: seq<Box>, i: nat, j: nat, p: Part)
    requires i < j < |boxes| && Contains(boxes[i], p) && Contains(boxes[j], p)
    ensures Count(boxes, p) >= 2
    decreases i
  {
    if i == 0 {
      CountOne(boxes[1..], j - 1, p);
    } else {
      CountTwo(boxes[1..], i - 1, j - 1, p);
    }
  }

  lemma {:induction false} CountOne(boxes: seq<Box>, j: nat, p: Part)
    requires j < |boxes| && Contains(boxes[j], p)
    ensures Count(boxes, p) >= 1
    decreases j
  {
    if j > 0 {
      CountOne(boxes[1..], j - 1, p);
    }
  }

  /** A part that is counted lies in one of the boxes. */
  lemma {:induction false} CountWitness(boxes: seq<Box>, p: Part) returns (k: nat)
    requires Count(boxes, p) >= 1
    ensures k < |boxes| && Contains(boxes[k], p)
    decreases |boxes|
  {
    if Contains(boxes[0], p) {
      k := 0;
    } else {
      k := CountWitness(boxes[1..], p);
      k := k + 1;
    }
  }

  /** The boxes of the queued states. */
  function Ranges(stack: seq<State>): (r: seq<Box>)
    ensures |r| == |stack| && forall k :: 0 <= k < |stack| ==> r[k] == stack[k].range
  {
    seq(|stack|, k requires 0 <= k < |stack| => stack[k].range)
  }

  /** How many of the accepted boxes and queued boxes a handled state
      yields hold `p`. */
  function CountOut(out: (seq<Box>, seq<State>), p: Part): nat
  {
    Count(out.0, p) + Count(Ranges(out.1), p)
  }

  lemma {:induction false} CountOutJoin(x: (seq<Box>, seq<State>), y: (seq<Box>, seq<State>), p: Part)
    ensures CountOut((x.0 + y.0, x.1 + y.1), p) == CountOut(x, p) + CountOut(y, p)
  {
    CountAppend(x.0, y.0, p);
    assert Ranges(x.1 + y.1) == Ranges(x.1) + Ranges(y.1);
    CountAppend(Ranges(x.1), Ranges(y.1), p);
  }

  /** How many pieces hold `p`. */
  function PieceCount(ps: seq<(Box, bool)>, p: Part): nat
    decreases |ps|
  {
    if ps == [] then 0 else Ind(ps[0].0, p) + PieceCount(ps[1..], p)
  }

  /** `eval_range` splits a box into pieces that hold each of its parts
      exactly once, and nothing else. */
  lemma {:induction false} EvalRangeCount(c: Condition, b: Box, p: Part)
    ensures PieceCount(EvalRange(c, b), p) == Ind(b, p)
  {
    var r := EvalRange(c, b);
    EvalRangeSound(c, b);
    assert PieceCount(r[1..], p) == if |r| == 2 then Ind(r[1].0, p) else 0 by {
      if |r| == 2 {
        assert r[1..][1..] == [];
      }
    }
    if Contains(b, p) {
      var k :| 0 <= k < |r| && Contains(r[k].0, p);
    } else {
      if Contains(r[0].0, p) {
        InsideContains(r[0].0, b, p);
      }
      if |r| == 2 && Contains(r[1].0, p) {
        InsideContains(r[1].0, b, p);
      }
    }
  }

  /** A part of a sound state that the step rejects is not one `process`
      accepts. */
  lemma {:induction false} RejectNotAccepted(wf: Workflows, s: State, d: nat, p: Part)
    requires s.workflow in wf && s.step < |wf[s.workflow]|
    requires Contains(s.range, p) && StateSound(wf, s, d)
    requires Applies(wf[s.workflow][s.step], p) && wf[s.workflow][s.step].action.Reject?
    ensures !ProcessAccepts(wf, p)
  {
    var steps := wf[s.workflow];
    StepDecides(steps, p, s.step);
    assert ProcessFrom(wf, "in", p, 1 + d) == ProcessFrom(wf, s.workflow, p, 1) == Rejected;
    if ProcessAccepts(wf, p) {
      var f: nat :| ProcessFrom(wf, "in", p, f) == Accepted;
      if f <= 1 + d {
        ProcessFuelMonotone(wf, "in", p, f, 1 + d - f);
      } else {
        ProcessFuelMonotone(wf, "in", p, 1 + d, f - (1 + d));
      }
    }
  }

  /** Applying the step's action to a box counts a part at most once, and
      exactly once when `process` accepts it. */
  lemma {:induction false} ApplyCount(wf: Workflows, s: State, d: nat, range: Box, p: Part)
    requires s.workflow in wf && s.step < |wf[s.workflow]| && StateSound(wf, s, d)
    requires Inside(range, s.range)
    requires Contains(range, p) ==> Applies(wf[s.workflow][s.step], p)
    ensures CountOut(Apply(wf[s.workflow][s.step].action, range), p) <= Ind(range, p)
    ensures ProcessAccepts(wf, p) ==> CountOut(Apply(wf[s.workflow][s.step].action, range), p) == Ind(range, p)
  {
    match wf[s.workflow][s.step].action
    case Accept =>
      assert [range][1..] == [];
    case Reject =>
      if Contains(range, p) {
        InsideContains(range, s.range, p);
        RejectNotAccepted(wf, s, d, p);
      }
    case Send(w) =>
      assert Ranges([State(range, 0, w)]) == [range];
      assert [range][1..] == [];
  }

  /** Handling the pieces counts a part as often as the pieces hold it,
      or less when the step rejects it. */
  lemma {:induction false} PiecesCount(wf: Workflows, s: State, d: nat, c: Condition, ps: seq<(Box, bool)>, p: Part)
    requires s.workflow in wf && s.step < |wf[s.workflow]| && StateSound(wf, s, d)
    requires wf[s.workflow][s.step].condition == Some(c)
    requires forall k :: 0 <= k < |ps| ==> Inside(ps[k].0, s.range)
    requires forall k, p :: 0 <= k < |ps| && Contains(ps[k].0, p) ==> ps[k].1 == Eval(c, p)
    ensures CountOut(Pieces(wf[s.workflow][s.step].action, s, ps), p) <= PieceCount(ps, p)
    ensures ProcessAccepts(wf, p) ==> CountOut(Pieces(wf[s.workflow][s.step].action, s, ps), p) == PieceCount(ps, p)
    decreases |ps|
  {
    if ps != [] {
      var action := wf[s.workflow][s.step].action;
      var range := ps[0].0;
      assert Inside(range, s.range);
      if ps[0].1 {
        if Contains(range, p) {
          assert ps[0].1 == Eval(c, p);
        }
        ApplyCount(wf, s, d, range, p);
      } else {
        assert Ranges([State(range, s.step + 1, s.workflow)]) == [range];
        assert [range][1..] == [];
      }
      PiecesCount(wf, s, d, c, ps[1..], p);
      CountOutJoin(Piece(action, s, ps[0]), Pieces(action, s, ps[1..]), p);
    }
  }

  /** Handling a sound state counts each part of its box at most once, and
      exactly once when `process` accepts it; it counts no other part. */
  lemma {:induction false} HandleCount(wf: Workflows, s: State, d: nat, p: Part)
    requires s.workflow in wf && s.step < |wf[s.workflow]| && StateSound(wf, s, d)
    ensures CountOut(Handle(wf[s.workflow][s.step], s), p) <= Ind(s.range, p)
    ensures ProcessAccepts(wf, p) ==> CountOut(Handle(wf[s.workflow][s.step], s), p) == Ind(s.range, p)
  {
    var step := wf[s.workflow][s.step];
    match step.condition
    case None =>
      assert Inside(s.range, s.range);
      ApplyCount(wf, s, d, s.range, p);
    case Some(c) =>
      EvalRangeSound(c, s.range);
      var ps := EvalRange(c, s.range);
      assert forall k, p :: 0 <= k < |ps| && Contains(ps[k].0, p) ==> ps[k].1 == Eval(c, p);
      PiecesCount(wf, s, d, c, ps, p);
      EvalRangeCount(c, s.range, p);
  }

  /** The partition invariant: the accepted boxes and the queued boxes
      together hold each part at most once, and each part of the starting
      box that `process` accepts exactly once. */
  ghost predicate Exact(wf: Workflows, stack: seq<State>, accepted: seq<Box>)
  {
    forall p :: Count(accepted + Ranges(stack), p) <= 1
      && (Contains(InitialBox(), p) && ProcessAccepts(wf, p) ==> Count(accepted + Ranges(stack), p) == 1)
  }

  /** The accepted boxes hold each part of the starting box that `process`
      accepts exactly once, and no other part. */
  ghost predicate ExactlyAccepted(wf: Workflows, boxes: seq<Box>)
  {
    forall p :: Count(boxes, p) == if Contains(InitialBox(), p) && ProcessAccepts(wf, p) then 1 else 0
  }

  /** What `ExactlyAccepted` means box by box: the boxes cover the accepted
      parts, hold no other part, and never overlap. */
  lemma {:induction false} ExactlyAcceptedCovers(wf: Workflows, boxes: seq<Box>)
    requires ExactlyAccepted(wf, boxes)
    ensures forall p :: Contains(InitialBox(), p) && ProcessAccepts(wf, p) ==>
      exists k :: 0 <= k < |boxes| && Contains(boxes[k], p)
    ensures forall k, p :: 0 <= k < |boxes| && Contains(boxes[k], p) ==>
      Contains(InitialBox(), p) && ProcessAccepts(wf, p)
    ensures forall i, j, p :: 0 <= i < j < |boxes| && Contains(boxes[i], p) ==> !Contains(boxes[j], p)
  {
    forall p | Contains(InitialBox(), p) && ProcessAccepts(wf, p)
      ensures exists k :: 0 <= k < |boxes| && Contains(boxes[k], p)
    {
      var k := CountWitness(boxes, p);
    }
    forall k, p | 0 <= k < |boxes| && Contains(boxes[k], p)
      ensures Contains(InitialBox(), p) && ProcessAccepts(wf, p)
    {
      CountOne(boxes, k, p);
    }
    forall i, j, p | 0 <= i < j < |boxes| && Contains(boxes[i], p)
      ensures !Contains(boxes[j], p)
    {
      if Contains(boxes[j], p) {
        CountTwo(boxes, i, j, p);
      }
    }
  }

  /** One round of the worklist keeps the partition invariant. */
  lemma {:induction false} RoundExact(wf: Workflows, stack: seq<State>, depths: seq<nat>, accepted: seq<Box>)
    requires Sound(wf, stack, depths, accepted) && Exact(wf, stack, accepted) && stack != []
    requires stack[|stack| - 1].workflow in wf
    requires stack[|stack| - 1].step < |wf[stack[|stack| - 1].workflow]|
    ensures var s := stack[|stack| - 1];
      var out := Handle(wf[s.workflow][s.step], s);
      Exact(wf, stack[..|stack| - 1] + out.1, accepted + out.0)
  {
    var s := stack[|stack| - 1];
    var d := depths[|depths| - 1];
    var out := Handle(wf[s.workflow][s.step], s);
    var rest := stack[..|stack| - 1];
    assert StateSound(wf, s, d);
    assert Ranges(stack) == Ranges(rest) + [s.range];
    assert Ranges(rest + out.1) == Ranges(rest) + Ranges(out.1);
    assert [s.range][1..] == [];
    forall p
      ensures Count(accepted + out.0 + Ranges(rest + out.1), p) <= 1
      ensures Contains(InitialBox(), p) && ProcessAccepts(wf, p) ==> Count(accepted + out.0 + Ranges(rest + out.1), p) == 1
    {
      HandleCount(wf, s, d, p);
      CountAppend(accepted, Ranges(rest) + [s.range], p);
      CountAppend(Ranges(rest), [s.range], p);
      CountAppend(accepted + out.0, Ranges(rest) + Ranges(out.1), p);
      CountAppend(accepted, out.0, p);
      CountAppend(Ranges(rest), Ranges(out.1), p);
    }
  }

  /** When the worklist empties, the accepted boxes partition the parts of
      the starting box that `process` accepts. */
  lemma {:induction false} ExploreExact(wf: Workflows, stack: seq<State>, depths: seq<nat>, accepted: seq<Box>, fuel: nat)
    requires Sound(wf, stack, depths, accepted) && Exact(wf, stack, accepted)
    ensures Explore(wf, stack, accepted, fuel).0 == Finished ==> ExactlyAccepted(wf, Explore(wf, stack, accepted, fuel).1)
    decreases fuel
  {
    if stack == [] {
      assert accepted + Ranges(stack) == accepted;
      forall p
        ensures Count(accepted, p) == if Contains(InitialBox(), p) && ProcessAccepts(wf, p) then 1 else 0
      {
        if Count(accepted, p) >= 1 {
          var k := CountWitness(accepted, p);
          InsideContains(accepted[k], InitialBox(), p);
        }
      }
    } else if fuel > 0 {
      var s := stack[|stack| - 1];
      if s.workflow in wf && s.step < |wf[s.workflow]| {
        var out := Handle(wf[s.workflow][s.step], s);
        RoundSound(wf, stack, depths, accepted);
        RoundExact(wf, stack, depths, accepted);
        var stack' := stack[..|stack| - 1] + out.1;
        var depths' := depths[..|depths| - 1] + PushedDepths(out.1, depths[|depths| - 1]);
        ExploreExact(wf, stack', depths', accepted + out.0, fuel - 1);
        assert Explore(wf, stack, accepted, fuel) == Explore(wf, stack', accepted + out.0, fuel - 1);
      }
    }
  }

  /** The starting state holds each part of the starting box once. */
  lemma {:induction false} InitialExact(wf: Workflows)
    ensures Exact(wf, [State(InitialBox(), 0, "in")], [])
  {
    var stack := [State(InitialBox(), 0, "in")];
    assert [] + Ranges(stack) == [InitialBox()];
    assert [InitialBox()][1..] == [];
  }

  /** `find_accepting_ranges`. */
  method FindAcceptingRanges(wf: Workflows, fuel: nat) returns (status: Status, accepted: seq<Box>)
    ensures (status, accepted) == Explore(wf, [State(InitialBox(), 0, "in")], [], fuel)
    ensures AllAccepted(wf, accepted)
    ensures status == Finished ==> ExactlyAccepted(wf, accepted)
  {
    var stack := [State(InitialBox(), 0, "in")];
    accepted := [];
    var f := fuel;
    InitialSound(wf);
    ExploreSound(wf, stack, [0], accepted, fuel);
    InitialExact(wf);
    ExploreExact(wf, stack, [0], accepted, fuel);
    while stack != []
      invariant Explore(wf, stack, accepted, f) == Explore(wf, [State(InitialBox(), 0, "in")], [], fuel)
      decreases f
    {
      if f == 0 {
        return OutOfFuel, accepted;
      }
      var s := stack[|stack| - 1];
      stack := stack[..|stack| - 1];
      if s.workflow !in wf || s.step >= |wf[s.workflow]| {
        return Stuck, accepted;
      }
      var step := wf[s.workflow][s.step];
      var (acc, pushed) := Handle(step, s);
      accepted := accepted + acc;
      stack := stack + pushed;
      f := f - 1;
    }
    status := Finished;
  }

  function Width(s: Span): int
  {
    s.hi - s.lo + 1
  }

  /** The number of parts in a box. */
  function Volume(b: Box): int
  {
    Width(b.cool) * Width(b.musical) * Width(b.aerodynamic) * Width(b.shiny)
  }

  function Combinations(boxes: seq<Box>): int
  {
    if boxes == [] then 0 else Combinations(boxes[..|boxes| - 1]) + Volume(boxes[|boxes| - 1])
  }

  /** `part_two`: the number of parts in the accepted boxes. */
  method PartTwo(wf: Workflows, fuel: nat) returns (status: Status, combinations: int)
    ensures var (st, boxes) := Explore(wf, [State(InitialBox(), 0, "in")], [], fuel);
      status == st && combinations == Combinations(boxes)
      && (status == Finished ==> ExactlyAccepted(wf, boxes))
  {
    var boxes;
    status, boxes := FindAcceptingRanges(wf, fuel);
    combinations := 0;
    for i := 0 to |boxes|
      invariant combinations == Combinations(boxes[..i])
    {
      assert boxes[..i + 1][..i] == boxes[..i];
      combinations := combinations + Volume(boxes[i]);
    }
    assert boxes[..|boxes|] == boxes;
  }

  function RatingSum(p: Part): nat
  {
    p.cool + p.musical + p.aerodynamic + p.shiny
  }

  /** The ratings of the accepted parts added up; `None` when `process`
      does not end in a verdict for some part. */
  function RatingTotal(wf: Workflows, parts: seq<Part>, fuel: nat): Option<nat>
  {
    if parts == [] then Some(0)
    else
      match RatingTotal(wf, parts[..|parts| - 1], fuel)
      case None => None
      case Some(t) =>
        var p := parts[|parts| - 1];
        match ProcessFrom(wf, "in", p, fuel)
        case Accepted => Some(t + RatingSum(p))
        case Rejected => Some(t)
        case _ => None
  }

  /** A total that was reached stays the same with more fuel. */
  lemma {:induction false} RatingTotalFuel(wf: Workflows, parts: seq<Part>, fuel: nat, more: nat)
    requires RatingTotal(wf, parts, fuel).Some?
    ensures RatingTotal(wf, parts, fuel + more) == RatingTotal(wf, parts, fuel)
    decreases |parts|
  {
    if parts != [] {
      RatingTotalFuel(wf, parts[..|parts| - 1], fuel, more);
      ProcessFuelMonotone(wf, "in", parts[|parts| - 1], fuel, more);
    }
  }

  /** `part_one`: the rating sum of the parts `process` accepts. */
  method PartOne(wf: Workflows, parts: seq<Part>, fuel: nat) returns (total: Option<nat>)
    ensures total == RatingTotal(wf, parts, fuel)
  {
    var sum := 0;
    for i := 0 to |parts|
      invariant RatingTotal(wf, parts[..i], fuel) == Some(sum)
    {
      assert parts[..i + 1][..i] == parts[..i];
      var v := Process(wf, parts[i], fuel);
      match v
      case Accepted => sum := sum + RatingSum(parts[i]);
      case Rejected =>
      case _ =>
        NoneStays(wf, parts, i + 1, fuel);
        return None;
    }
    assert parts[..|parts|] == parts;
    total := Some(sum);
  }

  /** Once a part gets no verdict, the total is `None` for every longer
      prefix. */
  lemma {:induction false} NoneStays(wf: Workflows, parts: seq<Part>, n: nat, fuel: nat)
    requires n <= |parts| && RatingTotal(wf, parts[..n], fuel).None?
    ensures RatingTotal(wf, parts, fuel).None?
    decreases |parts| - n
  {
    if n < |parts| {
      assert parts[..n + 1][..n] == parts[..n];
      NoneStays(wf, parts, n + 1, fuel);
    } else {
      assert parts[..n] == parts;
    }
  }

  /** The parts of the second section; lines the pattern passes over are
      skipped. */
  function ParseParts(lines: seq<string>): (parts: seq<Part>)
    requires forall i :: 0 <= i < |lines| ==> !Overflows(lines[i])
    ensures |parts| <= |lines|
  {
    if lines == [] then []
    else
      var front := ParseParts(lines[..|lines| - 1]);
      match ParsePart(lines[|lines| - 1])
      case None => front
      case Some(p) => front + [p]
  }

  /** The two sections of the input, split at the first blank line, as
      lines; `None` where `split_once("\n\n")` finds no blank line. */
  function Sections(text: string): Option<(seq<string>, seq<string>)>
  {
    match SplitOnce(text, "\n\n")
    case None => None
    case Some((workflows, parts)) => Some((Split(workflows, "\n"), Split(parts, "\n")))
  }
}
