/** Day 19: machine parts rated on four variables, and the conditions the
    workflows test them with, on single parts and on boxes of parts. */
module Day19 {
  import opened Common

  datatype Variable = Cool | Musical | Aerodynamic | Shiny

  datatype Relation = Less | Greater

  /** A test `variable < value` or `variable > value`; `value` is a `u16`. */
  datatype Condition = Condition(variable: Variable, relation: Relation, value: nat)

  /** `Input`: one part's four ratings (each a `u16`). */
  datatype Part = Part(cool: nat, musical: nat, aerodynamic: nat, shiny: nat)

  /** An inclusive interval of ratings. */
  datatype Span = Span(lo: int, hi: int)

  /** `InputRange`: the box of parts whose four ratings lie in four spans. */
  datatype Box = Box(cool: Span, musical: Span, aerodynamic: Span, shiny: Span)

  function Rating(p: Part, v: Variable): nat
  {
    match v
    case Cool => p.cool
    case Musical => p.musical
    case Aerodynamic => p.aerodynamic
    case Shiny => p.shiny
  }

  function SpanOf(b: Box, v: Variable): Span
  {
    match v
    case Cool => b.cool
    case Musical => b.musical
    case Aerodynamic => b.aerodynamic
    case Shiny => b.shiny
  }

  /** `b` with the span of `v` replaced. */
  function WithSpan(b: Box, v: Variable, s: Span): (r: Box)
    ensures SpanOf(r, v) == s
    ensures forall u :: u != v ==> SpanOf(r, u) == SpanOf(b, u)
  {
    match v
    case Cool => b.(cool := s)
    case Musical => b.(musical := s)
    case Aerodynamic => b.(aerodynamic := s)
    case Shiny => b.(shiny := s)
  }

  predicate Within(s: Span, x: int)
  {
    s.lo <= x <= s.hi
  }

  predicate Contains(b: Box, p: Part)
  {
    Within(b.cool, p.cool) && Within(b.musical, p.musical)
    && Within(b.aerodynamic, p.aerodynamic) && Within(b.shiny, p.shiny)
  }

  /** Box `a` lies inside box `b`, span by span. */
  predicate Inside(a: Box, b: Box)
  {
    b.cool.lo <= a.cool.lo && a.cool.hi <= b.cool.hi
    && b.musical.lo <= a.musical.lo && a.musical.hi <= b.musical.hi
    && b.aerodynamic.lo <= a.aerodynamic.lo && a.aerodynamic.hi <= b.aerodynamic.hi
    && b.shiny.lo <= a.shiny.lo && a.shiny.hi <= b.shiny.hi
  }

  lemma {:induction false} InsideContains(a: Box, b: Box, p: Part)
    requires Inside(a, b) && Contains(a, p)
    ensures Contains(b, p)
  {
  }

  /** A part lies in `WithSpan(b, v, s)` when it lies in `b` and its
      `v` rating lies in `s`. */
  lemma {:induction false} ContainsWithSpan(b: Box, v: Variable, s: Span, p: Part)
    requires Contains(b, p) && Within(s, Rating(p, v))
    ensures Contains(WithSpan(b, v, s), p)
  {
  }

  lemma {:induction false} WithOwnSpan(b: Box, v: Variable)
    ensures WithSpan(b, v, SpanOf(b, v)) == b
  {
  }

  /** `Condition::eval`. */
  function Eval(c: Condition, p: Part): bool
  {
    var x := Rating(p, c.variable);
    match c.relation
    case Less => x < c.value
    case Greater => x > c.value
  }

  /** The verdicts of the lower and the upper piece, the last rating of the
      lower piece and the first of the upper one. */
  function Sides(c: Condition): (bool, bool, int, int)
  {
    match c.relation
    case Less => (true, false, c.value - 1, c.value)
    case Greater => (false, true, c.value, c.value + 1)
  }

  /** Ratings up to the lower piece's last one get the lower verdict, those
      from the upper piece's first one the upper verdict. */
  lemma {:induction false} SidesVerdict(c: Condition, p: Part)
    ensures Rating(p, c.variable) <= Sides(c).2 ==> Eval(c, p) == Sides(c).0
    ensures Rating(p, c.variable) >= Sides(c).3 ==> Eval(c, p) == Sides(c).1
  {
  }

  /** `Condition::eval_range` as written: the whole box goes to the lower
      piece when the value is at or above the span's top, to the upper piece
      when it is at or below the span's bottom, and is cut in two otherwise. */
  function EvalRangeAsWritten(c: Condition, b: Box): (r: seq<(Box, bool)>)
    ensures 1 <= |r| <= 2
  {
    var s := SpanOf(b, c.variable);
    var (lowerEval, upperEval, lowerEnd, upperStart) := Sides(c);
    if c.value >= s.hi then [(b, lowerEval)]
    else if c.value <= s.lo then [(b, upperEval)]
    else [(WithSpan(b, c.variable, Span(s.lo, lowerEnd)), lowerEval),
          (WithSpan(b, c.variable, Span(upperStart, s.hi)), upperEval)]
  }

  /** A `<` test whose value is the top of the span: the whole box is
      flagged as passing, yet its top rating fails the test. */
  lemma {:induction false} AsWrittenCounterexample(c: Condition, b: Box, p: Part)
    requires c == Condition(Cool, Less, 1999)
    requires b == Box(Span(1, 1999), Span(1, 4000), Span(1, 4000), Span(1, 4000))
    requires p == Part(1999, 1, 1, 1)
    ensures Contains(b, p) && EvalRangeAsWritten(c, b) == [(b, true)] && !Eval(c, p)
  {
  }

  /** The same for a `>` test whose value is the bottom of the span. */
  lemma {:induction false} AsWrittenCounterexampleGreater(c: Condition, b: Box, p: Part)
    requires c == Condition(Musical, Greater, 2090)
    requires b == Box(Span(1, 4000), Span(2090, 4000), Span(1, 4000), Span(1, 4000))
    requires p == Part(1, 2090, 1, 1)
    ensures Contains(b, p) && EvalRangeAsWritten(c, b) == [(b, true)] && !Eval(c, p)
  {
  }

  /** A part of a box has its ratings in the box's spans. */
  lemma {:induction false} ContainsRating(b: Box, p: Part, v: Variable)
    requires Contains(b, p)
    ensures Within(SpanOf(b, v), Rating(p, v))
  {
  }

  /** `eval_range` with the two whole-box guards comparing against the
      piece boundaries: the box is the lower piece when its top is at most
      the lower piece's last rating, the upper piece when its bottom is at
      least the upper piece's first rating, and is cut in two otherwise. */
  function EvalRange(c: Condition, b: Box): (r: seq<(Box, bool)>)
    ensures 1 <= |r| <= 2
  {
    var v := c.variable;
    var s := SpanOf(b, v);
    var (lowerEval, upperEval, lowerEnd, upperStart) := Sides(c);
    if s.hi <= lowerEnd then [(b, lowerEval)]
    else if upperStart <= s.lo then [(b, upperEval)]
    else [(WithSpan(b, v, Span(s.lo, lowerEnd)), lowerEval),
          (WithSpan(b, v, Span(upperStart, s.hi)), upperEval)]
  }

  /** The pieces of `EvalRange` partition the box: every part of the box
      lies in exactly one piece, each piece lies in the box and differs from
      it only in the variable the test reads, and each piece's verdict is the
      test's verdict on every part in it. */
  lemma {:induction false} EvalRangeSound(c: Condition, b: Box)
    ensures var r := EvalRange(c, b);
      && (forall k :: 0 <= k < |r| ==> Inside(r[k].0, b))
      && (forall k :: 0 <= k < |r| ==> r[k].0 == WithSpan(b, c.variable, SpanOf(r[k].0, c.variable)))
      && (forall k, p :: 0 <= k < |r| && Contains(r[k].0, p) ==> r[k].1 == Eval(c, p))
      && (forall p :: Contains(b, p) ==> exists k :: 0 <= k < |r| && Contains(r[k].0, p))
      && (|r| == 2 ==> forall p :: !(Contains(r[0].0, p) && Contains(r[1].0, p)))
  {
    var r := EvalRange(c, b);
    var v := c.variable;
    var s := SpanOf(b, v);
    var (lowerEval, upperEval, lowerEnd, upperStart) := Sides(c);
    WithOwnSpan(b, v);
    forall k, p | 0 <= k < |r| && Contains(r[k].0, p)
      ensures r[k].1 == Eval(c, p)
    {
      ContainsRating(r[k].0, p, v);
      SidesVerdict(c, p);
    }
    forall p | Contains(b, p)
      ensures exists k :: 0 <= k < |r| && Contains(r[k].0, p)
    {
      ContainsRating(b, p, v);
      if |r| == 1 {
        assert Contains(r[0].0, p);
      } else if Rating(p, v) <= lowerEnd {
        ContainsWithSpan(b, v, Span(s.lo, lowerEnd), p);
        assert Contains(r[0].0, p);
      } else {
        ContainsWithSpan(b, v, Span(upperStart, s.hi), p);
        assert Contains(r[1].0, p);
      }
    }
    if |r| == 2 {
      forall p
        ensures !(Contains(r[0].0, p) && Contains(r[1].0, p))
      {
        if Contains(r[0].0, p) {
          ContainsRating(r[0].0, p, v);
        }
        if Contains(r[1].0, p) {
          ContainsRating(r[1].0, p, v);
        }
      }
    }
  }

  /** Away from the two boundary cases the written guards and the corrected
      ones cut every box the same way. */
  lemma {:induction false} AsWrittenAgreesOffBoundary(c: Condition, b: Box)
    requires !(c.relation == Less && c.value == SpanOf(b, c.variable).hi)
    requires !(c.relation == Greater && c.value == SpanOf(b, c.variable).lo)
    ensures EvalRangeAsWritten(c, b) == EvalRange(c, b)
  {
  }
}
