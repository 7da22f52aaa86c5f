/** Day 19: workflows of steps, how they are read from text, and how one
    part is run through them (`process`). */
module Day19Flow {
  import opened Common
  import opened Day19

  datatype Action = Accept | Reject | Send(workflow: string)

  /** `Step`: an optional test and what to do with a part that passes it. */
  datatype Step = Step(condition: Option<Condition>, action: Action)

  /** The workflows by name. */
  type Workflows = map<string, seq<Step>>

  /** How `process` ends for a part: `true`, `false`, a panic on a missing
      workflow, or still running when the fuel is spent. */
  datatype Verdict = Accepted | Rejected | Panicked | Exhausted

  predicate Applies(step: Step, p: Part)
  {
    step.condition.None? || Eval(step.condition.value, p)
  }

  /** The index of the first step at or after `from` that applies to `p`. */
  function FirstApplicable(steps: seq<Step>, p: Part, from: nat): (r: Option<nat>)
    requires from <= |steps|
    ensures r.Some? ==> from <= r.value < |steps| && Applies(steps[r.value], p)
    ensures r.Some? ==> forall j :: from <= j < r.value ==> !Applies(steps[j], p)
    ensures r.None? <==> forall j :: from <= j < |steps| ==> !Applies(steps[j], p)
    decreases |steps| - from
  {
    if from == |steps| then None
    else if Applies(steps[from], p) then Some(from)
    else FirstApplicable(steps, p, from + 1)
  }

  /** The action of the first applicable step of a workflow. */
  function Decide(steps: seq<Step>, p: Part): Option<Action>
  {
    match FirstApplicable(steps, p, 0)
    case None => None
    case Some(i) => Some(steps[i].action)
  }

  /** A step that applies, after steps that all do not, decides. */
  lemma {:induction false} StepDecides(steps: seq<Step>, p: Part, k: nat)
    requires k < |steps| && Applies(steps[k], p)
    requires forall j :: 0 <= j < k ==> !Applies(steps[j], p)
    ensures Decide(steps, p) == Some(steps[k].action)
  {
    var r := FirstApplicable(steps, p, 0);
    assert r.Some? && r.value == k;
  }

  /** `process` from workflow `w`, one workflow per unit of fuel. A
      workflow none of whose steps applies is started over, so the part
      then never leaves it. */
  function ProcessFrom(wf: Workflows, w: string, p: Part, fuel: nat): Verdict
    decreases fuel
  {
    if fuel == 0 then Exhausted
    else if w !in wf then Panicked
    else match Decide(wf[w], p)
      case None => ProcessFrom(wf, w, p, fuel - 1)
      case Some(Accept) => Accepted
      case Some(Reject) => Rejected
      case Some(Send(next)) => ProcessFrom(wf, next, p, fuel - 1)
  }

  /** More fuel does not change a verdict that was reached. */
  lemma {:induction false} ProcessFuelMonotone(wf: Workflows, w: string, p: Part, fuel: nat, more: nat)
    requires ProcessFrom(wf, w, p, fuel) != Exhausted
    ensures ProcessFrom(wf, w, p, fuel + more) == ProcessFrom(wf, w, p, fuel)
    decreases fuel
  {
    if w in wf {
      match Decide(wf[w], p)
      case None => ProcessFuelMonotone(wf, w, p, fuel - 1, more);
      case Some(Accept) =>
      case Some(Reject) =>
      case Some(Send(next)) => ProcessFuelMonotone(wf, next, p, fuel - 1, more);
    }
  }

  /** A part that no step of its workflow lets through never gets a
      verdict: `process` loops forever. */
  lemma {:induction false} NoStepLoops(wf: Workflows, w: string, p: Part, fuel: nat)
    requires w in wf && Decide(wf[w], p).None?
    ensures ProcessFrom(wf, w, p, fuel) == Exhausted
    decreases fuel
  {
    if fuel > 0 {
      NoStepLoops(wf, w, p, fuel - 1);
    }
  }

  /** `process`: starting at "in", scan the current workflow's steps for
      the first one that applies and follow its action; `fuel` bounds the
      number of workflows visited. */
  method Process(wf: Workflows, p: Part, fuel: nat) returns (v: Verdict)
    ensures v == ProcessFrom(wf, "in", p, fuel)
  {
    var current := "in";
    var f := fuel;
    while true
      invariant ProcessFrom(wf, current, p, f) == ProcessFrom(wf, "in", p, fuel)
      decreases f
    {
      if f == 0 {
        return Exhausted;
      }
      if current !in wf {
        return Panicked;
      }
      var steps := wf[current];
      var i := 0;
      while i < |steps| && !Applies(steps[i], p)
        invariant i <= |steps|
        invariant forall j :: 0 <= j < i ==> !Applies(steps[j], p)
      {
        i := i + 1;
      }
      if i < |steps| {
        StepDecides(steps, p, i);
        match steps[i].action
        case Accept => return Accepted;
        case Reject => return Rejected;
        case Send(next) => current := next;
      } else {
        assert FirstApplicable(steps, p, 0).None?;
      }
      f := f - 1;
    }
  }

  function VariableFromChar(c: char): Option<Variable>
  {
    match c
    case 'x' => Some(Cool)
    case 'm' => Some(Musical)
    case 'a' => Some(Aerodynamic)
    case 's' => Some(Shiny)
    case _ => None
  }

  function VariableChar(v: Variable): char
  {
    match v
    case Cool => 'x'
    case Musical => 'm'
    case Aerodynamic => 'a'
    case Shiny => 's'
  }

  function RelationFromChar(c: char): Option<Relation>
  {
    match c
    case '<' => Some(Less)
    case '>' => Some(Greater)
    case _ => None
  }

  function RelationChar(r: Relation): char
  {
    match r
    case Less => '<'
    case Greater => '>'
  }

  /** `Action::from_str`: "A", "R", or the name of a workflow. */
  function ActionFromStr(s: string): Action
  {
    if s == "A" then Accept else if s == "R" then Reject else Send(s)
  }

  function ShowAction(a: Action): string
  {
    match a
    case Accept => "A"
    case Reject => "R"
    case Send(w) => w
  }

  /** `Step::from_str`: "<variable><relation><u16>:<action>" or a bare
      action; `None` where the source panics (an unknown variable or
      relation, a test of fewer than two characters, a bad number). */
  function StepFromStr(s: string): Option<Step>
  {
    match SplitOnce(s, ":")
    case None => Some(Step(None, ActionFromStr(s)))
    case Some((test, act)) =>
      if |test| < 2 then None
      else match (VariableFromChar(test[0]), RelationFromChar(test[1]), ParseNat(test[2..], U16_MAX))
        case (Some(v), Some(r), Some(n)) => Some(Step(Some(Condition(v, r, n)), ActionFromStr(act)))
        case _ => None
  }

  function ShowCondition(c: Condition): string
  {
    [VariableChar(c.variable), RelationChar(c.relation)] + Decimal(c.value)
  }

  function ShowStep(step: Step): string
  {
    match step.condition
    case None => ShowAction(step.action)
    case Some(c) => ShowCondition(c) + ":" + ShowAction(step.action)
  }

  /** A workflow name that reads back as itself. */
  predicate GoodName(w: string)
  {
    w != "A" && w != "R" && ':' !in w && ',' !in w
  }

  predicate GoodStep(step: Step)
  {
    (step.condition.Some? ==> step.condition.value.value <= U16_MAX)
    && (step.action.Send? ==> GoodName(step.action.workflow))
  }

  lemma {:induction false} ActionRoundTrip(a: Action)
    requires a.Send? ==> GoodName(a.workflow)
    ensures ActionFromStr(ShowAction(a)) == a
    ensures ':' !in ShowAction(a) && ',' !in ShowAction(a)
  {
  }

  /** The parts of a written condition. */
  lemma {:induction false} ConditionText(c: Condition)
    ensures var t := ShowCondition(c);
      |t| >= 3 && t[0] == VariableChar(c.variable) && t[1] == RelationChar(c.relation)
      && t[2..] == Decimal(c.value) && Free(t, ":")
  {
    var t := ShowCondition(c);
    assert t[2..] == Decimal(c.value);
    assert ':' !in t by {
      assert forall i :: 2 <= i < |t| ==> IsDigit(t[i]);
    }
    FreeChar(t, ':');
  }

  /** A written condition before ':' reads back as that condition. */
  lemma {:induction false} ConditionRoundTrip(c: Condition, act: string)
    requires c.value <= U16_MAX
    ensures StepFromStr(ShowCondition(c) + ":" + act) == Some(Step(Some(c), ActionFromStr(act)))
  {
    var test := ShowCondition(c);
    ConditionText(c);
    SplitOnceAt(test, ":", act);
    ParseNatDecimal(c.value, U16_MAX);
  }

  /** Reading a written step gives the step back. */
  lemma {:induction false} StepRoundTrip(step: Step)
    requires GoodStep(step)
    ensures StepFromStr(ShowStep(step)) == Some(step)
  {
    ActionRoundTrip(step.action);
    var act := ShowAction(step.action);
    match step.condition
    case None =>
      FreeChar(act, ':');
      assert SplitOnce(act, ":").None?;
    case Some(c) =>
      ConditionRoundTrip(c, act);
  }

  /** The name and the step list of a line "name{steps}", matched the way
      the pattern `(\w+)\{(.+)\}` matches it from the line's start: a
      non-empty run of word characters, then the text up to the line's
      last character, which must be a closing brace. */
  function WorkflowParts(line: string): Option<(string, string)>
  {
    match SplitOnce(line, "{")
    case None => None
    case Some((name, rest)) =>
      if |name| > 0 && (forall i :: 0 <= i < |name| ==> IsWordChar(name[i]))
         && |rest| >= 2 && rest[|rest| - 1] == '}'
      then Some((name, rest[..|rest| - 1]))
      else None
  }

  predicate IsWordChar(c: char)
  {
    'a' <= c <= 'z' || 'A' <= c <= 'Z' || '0' <= c <= '9' || c == '_'
  }

  /** The comma-separated steps of a workflow, or `None` when one of them
      panics. */
  function ParseSteps(body: string): Option<seq<Step>>
  {
    var texts := Split(body, ",");
    if forall i :: 0 <= i < |texts| ==> StepFromStr(texts[i]).Some? then
      Some(seq(|texts|, i requires 0 <= i < |texts| => StepFromStr(texts[i]).value))
    else None
  }

  /** What one line contributes to `parse_workflows`. */
  datatype Entry = Skipped | Broken | Declared(name: string, steps: seq<Step>)

  /** A line without the "name{steps}" shape is passed over; one whose
      steps make `Step::from_str` panic is broken. */
  function LineEntry(line: string): Entry
  {
    match WorkflowParts(line)
    case None => Skipped
    case Some((name, body)) =>
      match ParseSteps(body)
      case None => Broken
      case Some(steps) => Declared(name, steps)
  }

  /** Collecting the entries into a map: a later workflow of the same name
      replaces an earlier one; `None` when a line is broken. */
  function Collect(entries: seq<Entry>): Option<Workflows>
  {
    if entries == [] then Some(map[])
    else
      match Collect(entries[..|entries| - 1])
      case None => None
      case Some(earlier) =>
        match entries[|entries| - 1]
        case Skipped => Some(earlier)
        case Broken => None
        case Declared(name, steps) => Some(earlier[name := steps])
  }

  /** `parse_workflows`. */
  function ParseWorkflows(lines: seq<string>): Option<Workflows>
  {
    Collect(seq(|lines|, i requires 0 <= i < |lines| => LineEntry(lines[i])))
  }

  predicate Names(e: Entry, w: string)
  {
    e.Declared? && e.name == w
  }

  /** The workflows collected are exactly those some entry declares, and
      collecting fails exactly when some entry is broken. */
  lemma {:induction false} CollectNames(entries: seq<Entry>, w: string)
    ensures Collect(entries).None? <==> exists i :: 0 <= i < |entries| && entries[i].Broken?
    ensures Collect(entries).Some? ==>
      (w in Collect(entries).value <==> exists i :: 0 <= i < |entries| && Names(entries[i], w))
    decreases |entries|
  {
    if entries != [] {
      var front := entries[..|entries| - 1];
      CollectNames(front, w);
      assert forall i :: 0 <= i < |front| ==> front[i] == entries[i];
      if exists i :: 0 <= i < |entries| && entries[i].Broken? {
        var i :| 0 <= i < |entries| && entries[i].Broken?;
        if i < |front| {
          assert front[i].Broken?;
        }
      }
      if Collect(entries).Some? && exists i :: 0 <= i < |entries| && Names(entries[i], w) {
        var i :| 0 <= i < |entries| && Names(entries[i], w);
        if i < |front| {
          assert Names(front[i], w);
        }
      }
    }
  }

  /** The steps a name gets are those of its last entry. */
  lemma {:induction false} LastEntryWins(entries: seq<Entry>, i: nat, w: string)
    requires Collect(entries).Some? && i < |entries| && Names(entries[i], w)
    requires forall j :: i < j < |entries| ==> !Names(entries[j], w)
    ensures w in Collect(entries).value && Collect(entries).value[w] == entries[i].steps
    decreases |entries|
  {
    var front := entries[..|entries| - 1];
    if i < |front| {
      assert front[i] == entries[i];
      forall j | i < j < |front|
        ensures !Names(front[j], w)
      {
        assert front[j] == entries[j];
      }
      LastEntryWins(front, i, w);
    }
  }

  /** The digits of a field "<name>=<digits>". */
  function RatingDigits(field: string, name: char): Option<string>
  {
    if |field| >= 3 && field[0] == name && field[1] == '=' && AllDigits(field[2..])
    then Some(field[2..]) else None
  }

  /** The four ratings of a line "{x=..,m=..,a=..,s=..}" as digit strings,
      the way the pattern `\{x=(\d+),m=(\d+),a=(\d+),s=(\d+)\}` reads it. */
  function PartFields(line: string): Option<seq<string>>
  {
    if |line| >= 2 && line[0] == '{' && line[|line| - 1] == '}' then
      var fields := Split(line[1..|line| - 1], ",");
      if |fields| == 4 then
        match (RatingDigits(fields[0], 'x'), RatingDigits(fields[1], 'm'),
               RatingDigits(fields[2], 'a'), RatingDigits(fields[3], 's'))
        case (Some(x), Some(m), Some(a), Some(s)) => Some([x, m, a, s])
        case _ => None
      else None
    else None
  }

  /** A part line with a rating too large for a `u16`: `parse_input` panics. */
  predicate Overflows(line: string)
  {
    PartFields(line).Some? && exists k :: 0 <= k < 4 && DecimalValue(PartFields(line).value[k]) > U16_MAX
  }

  /** One line of `parse_input`; `None` for a line the pattern passes over. */
  function ParsePart(line: string): (r: Option<Part>)
    requires !Overflows(line)
    ensures r.Some? <==> PartFields(line).Some?
    ensures r.Some? ==> (r.value.cool <= U16_MAX && r.value.musical <= U16_MAX
      && r.value.aerodynamic <= U16_MAX && r.value.shiny <= U16_MAX)
  {
    match PartFields(line)
    case None => None
    case Some(f) =>
      Some(Part(DecimalValue(f[0]), DecimalValue(f[1]), DecimalValue(f[2]), DecimalValue(f[3])))
  }

  /** A written rating "<name>=<decimal>". */
  function ShowRating(name: char, n: nat): string
  {
    [name, '='] + Decimal(n)
  }

  function ShowPart(p: Part): string
  {
    "{" + Join([ShowRating('x', p.cool), ShowRating('m', p.musical),
                ShowRating('a', p.aerodynamic), ShowRating('s', p.shiny)], ",") + "}"
  }

  lemma {:induction false} RatingRoundTrip(name: char, n: nat)
    requires name != ','
    ensures RatingDigits(ShowRating(name, n), name) == Some(Decimal(n))
    ensures Free(ShowRating(name, n), ",")
  {
    var t := ShowRating(name, n);
    assert t[2..] == Decimal(n);
    assert ',' !in t by {
      assert forall i :: 2 <= i < |t| ==> IsDigit(t[i]);
    }
    FreeChar(t, ',');
  }

  /** The fields of a written part are the four written ratings. */
  lemma {:induction false} WrittenFields(p: Part)
    ensures PartFields(ShowPart(p)) == Some([Decimal(p.cool), Decimal(p.musical),
                                            Decimal(p.aerodynamic), Decimal(p.shiny)])
  {
    var fields := [ShowRating('x', p.cool), ShowRating('m', p.musical),
                   ShowRating('a', p.aerodynamic), ShowRating('s', p.shiny)];
    RatingRoundTrip('x', p.cool);
    RatingRoundTrip('m', p.musical);
    RatingRoundTrip('a', p.aerodynamic);
    RatingRoundTrip('s', p.shiny);
    SplitJoin(fields, ",");
    var line := ShowPart(p);
    assert line[1..|line| - 1] == Join(fields, ",");
  }

  /** Reading a written part gives the part back. */
  lemma {:induction false} PartRoundTrip(p: Part)
    requires p.cool <= U16_MAX && p.musical <= U16_MAX && p.aerodynamic <= U16_MAX && p.shiny <= U16_MAX
    ensures !Overflows(ShowPart(p)) && ParsePart(ShowPart(p)) == Some(p)
  {
    WrittenFields(p);
    DecimalRoundTrip(p.cool);
    DecimalRoundTrip(p.musical);
    DecimalRoundTrip(p.aerodynamic);
    DecimalRoundTrip(p.shiny);
  }
}
