/** Day 21: the monkeys' arithmetic tree, its evaluation with 64-bit signed
    integers, and solving for the value the human must shout. */
module Day21 {
  import opened Common

  datatype Op = Add | Sub | Mul | Div

  /** One monkey's job as written: a number, or an operation on the
      numbers of two other monkeys. */
  datatype Job = Constant(value: int) | Operation(left: string, right: string, op: Op)

  function OpOf(word: string): Option<Op>
  {
    if word == "+" then Some(Add)
    else if word == "-" then Some(Sub)
    else if word == "*" then Some(Mul)
    else if word == "/" then Some(Div)
    else None
  }

  function OpText(op: Op): string
  {
    match op
    case Add => "+"
    case Sub => "-"
    case Mul => "*"
    case Div => "/"
  }

  /** The job of a command split into words: one word is a number, three
      or more are an operation on the first and third. No word, a number
      that is not an `i64`, two words and an unknown operator are panics,
      here `None`. */
  function JobOf(words: seq<string>): (r: Option<Job>)
    ensures r.Some? && r.value.Constant? ==> I64_MIN <= r.value.value <= I64_MAX
  {
    if |words| == 0 then None
    else if |words| == 1 then
      match ParseInt(words[0], I64_MIN, I64_MAX)
      case None => None
      case Some(n) => Some(Constant(n))
    else if |words| == 2 then None
    else
      match OpOf(words[1])
      case None => None
      case Some(op) => Some(Operation(words[0], words[2], op))
  }

  /** `read_op` on one line: `name: N` or `name: a op b`; a line without
      `: ` is a panic. */
  function ReadOp(line: string): (r: Option<(string, Job)>)
    ensures r.Some? && r.value.1.Constant? ==> I64_MIN <= r.value.1.value <= I64_MAX
  {
    match SplitOnce(line, ": ")
    case None => None
    case Some((name, command)) =>
      match JobOf(Words(command))
      case None => None
      case Some(job) => Some((name, job))
  }

  /** The entries collected into a map; a later entry for the same name
      replaces an earlier one, as collecting into a `HashMap` does. Any
      missing entry (a panic while reading it) makes the whole a panic. */
  function Collect(entries: seq<Option<(string, Job)>>): (r: Option<map<string, Job>>)
  {
    if entries == [] then Some(map[])
    else
      match Collect(entries[..|entries| - 1])
      case None => None
      case Some(m) =>
        match entries[|entries| - 1]
        case None => None
        case Some((name, job)) => Some(m[name := job])
  }

  /** The map holds exactly the names of the entries, each with the job of
      its last entry, and exists exactly when every entry does. */
  lemma {:induction false} CollectAll(entries: seq<Option<(string, Job)>>)
    ensures Collect(entries).Some? <==> forall i :: 0 <= i < |entries| ==> entries[i].Some?
    ensures Collect(entries).Some? ==>
      (forall i :: 0 <= i < |entries| ==> entries[i].value.0 in Collect(entries).value)
      && forall name :: name in Collect(entries).value ==>
        exists i :: 0 <= i < |entries| && entries[i] == Some((name, Collect(entries).value[name]))
          && (forall j :: i < j < |entries| ==> entries[j].value.0 != name)
    decreases |entries|
  {
    if entries != [] {
      var front := entries[..|entries| - 1];
      CollectAll(front);
      forall i | 0 <= i < |front|
        ensures front[i] == entries[i]
      {
      }
    }
  }

  /** `read_op` over every line. */
  function Entries(lines: seq<string>): (r: seq<Option<(string, Job)>>)
    ensures |r| == |lines| && forall i :: 0 <= i < |lines| ==> r[i] == ReadOp(lines[i])
  {
    seq(|lines|, i requires 0 <= i < |lines| => ReadOp(lines[i]))
  }

  /** The jobs of all lines, by name. */
  function Jobs(lines: seq<string>): Option<map<string, Job>>
  {
    Collect(Entries(lines))
  }

  /** Every number a job holds is an `i64`, as `read_op` guarantees. */
  lemma {:induction false} Jobs64Holds(lines: seq<string>)
    requires Jobs(lines).Some?
    ensures Jobs64(Jobs(lines).value)
  {
    var entries := Entries(lines);
    CollectAll(entries);
    var m := Jobs(lines).value;
    forall name | name in m && m[name].Constant?
      ensures I64_MIN <= m[name].value <= I64_MAX
    {
      var i :| 0 <= i < |entries| && entries[i] == Some((name, m[name]))
        && forall j :: i < j < |entries| ==> entries[j].value.0 != name;
      assert ReadOp(lines[i]) == Some((name, m[name]));
    }
  }

  function ShowInt(n: int): string
  {
    if n >= 0 then Decimal(n) else "-" + Decimal(-n)
  }

  lemma {:induction false} OpRoundTrip(op: Op)
    ensures OpOf(OpText(op)) == Some(op) && OpText(op) != [] && ' ' !in OpText(op)
  {
  }

  /** A line as the puzzle writes it. */
  function ShowLine(name: string, job: Job): string
  {
    name + ": " +
      match job
      case Constant(n) => ShowInt(n)
      case Operation(a, b, op) => a + " " + OpText(op) + " " + b
  }

  /** A name that can stand on either side of `: ` or between spaces. */
  predicate Name(s: string)
  {
    s != [] && ':' !in s && ' ' !in s
  }

  predicate WellFormed(job: Job)
  {
    match job
    case Constant(n) => I64_MIN <= n <= I64_MAX
    case Operation(a, b, _) => Name(a) && Name(b)
  }

  lemma {:induction false} ParseShowInt(n: int)
    requires I64_MIN <= n <= I64_MAX
    ensures ParseInt(ShowInt(n), I64_MIN, I64_MAX) == Some(n)
    ensures ' ' !in ShowInt(n) && ShowInt(n) != []
  {
    var m: nat := if n >= 0 then n else -n;
    var d := Decimal(m);
    DecimalRoundTrip(m);
    assert IsDigit(d[0]);
    assert forall i :: 0 <= i < |d| ==> d[i] != ' ';
    if n < 0 {
      var s := "-" + d;
      assert s[1..] == d;
      assert forall i :: 0 <= i < |s| ==> s[i] != ' ';
    }
  }

  lemma {:induction false} SplitAtColon(name: string, command: string)
    requires ':' !in name
    ensures SplitOnce(name + ": " + command, ": ") == Some((name, command))
  {
    var s := name + ": " + command;
    assert s[|name|..|name| + 2] == ": ";
    forall j | 0 <= j < |name|
      ensures !OccursAt(s, ": ", j)
    {
      assert s[j..j + 2][0] == s[j] == name[j];
    }
    assert OccursAt(s, ": ", |name|);
    assert IndexOf(s, ": ", 0) == Some(|name|);
    assert s[..|name|] == name && s[|name| + 2..] == command;
  }

  lemma {:induction false} WordsOfOperation(a: string, o: string, b: string)
    requires Name(a) && Name(b) && o != [] && ' ' !in o
    ensures Words(a + " " + o + " " + b) == [a, o, b]
  {
    FreeChar(a, ' ');
    FreeChar(o, ' ');
    FreeChar(b, ' ');
    var parts := [a, o, b];
    assert parts[1..] == [o, b];
    assert [o, b][1..] == [b];
    calc {
      Join(parts, " ");
      a + " " + Join([o, b], " ");
      a + " " + (o + " " + Join([b], " "));
      a + " " + (o + " " + b);
      a + " " + o + " " + b;
    }
    assert forall k :: 0 <= k < |parts| ==> Free(parts[k], " ");
    SplitJoin(parts, " ");
    assert NonEmpty([b]) == [b] by {
      assert NonEmpty([b][1..]) == [];
    }
    assert NonEmpty([o, b]) == [o] + NonEmpty([b]);
    assert NonEmpty(parts) == [a] + NonEmpty([o, b]);
  }

  lemma {:induction false} ReadConstantLine(name: string, n: int)
    requires ':' !in name && I64_MIN <= n <= I64_MAX
    ensures ReadOp(name + ": " + ShowInt(n)) == Some((name, Constant(n)))
  {
    var command := ShowInt(n);
    SplitAtColon(name, command);
    ParseShowInt(n);
    FreeChar(command, ' ');
    assert Split(command, " ") == [command];
    assert [command][1..] == [];
    assert NonEmpty([command]) == [command] + NonEmpty([]);
    assert Words(command) == [command];
    assert JobOf([command]) == Some(Constant(n));
  }

  lemma {:induction false} ReadOperationLine(name: string, a: string, b: string, op: Op)
    requires ':' !in name && Name(a) && Name(b)
    ensures ReadOp(name + ": " + (a + " " + OpText(op) + " " + b)) == Some((name, Operation(a, b, op)))
  {
    var command := a + " " + OpText(op) + " " + b;
    SplitAtColon(name, command);
    OpRoundTrip(op);
    WordsOfOperation(a, OpText(op), b);
    var words := [a, OpText(op), b];
    assert words[0] == a && words[1] == OpText(op) && words[2] == b;
    assert JobOf(words) == Some(Operation(a, b, op));
  }

  /** Every well-formed job is read back from its line. */
  lemma {:induction false} ReadOpRoundTrip(name: string, job: Job)
    requires ':' !in name && WellFormed(job)
    ensures ReadOp(ShowLine(name, job)) == Some((name, job))
  {
    match job {
      case Constant(n) => ReadConstantLine(name, n);
      case Operation(a, b, op) => ReadOperationLine(name, a, b, op);
    }
  }

  /** The tree `transform` builds: every node knows whether the human's
      number occurs below it. */
  datatype Node = Leaf(value: int) | Branch(left: Arith, right: Arith, op: Op)
  datatype Arith = Arith(isVariable: bool, node: Node)

  /** Every inner node is variable exactly when one of its operands is. */
  predicate Marked(a: Arith)
  {
    match a.node
    case Leaf(_) => true
    case Branch(l, r, _) => a.isVariable == (l.isVariable || r.isVariable) && Marked(l) && Marked(r)
  }

  /** Every number in the tree is an `i64`. */
  predicate Leaves64(a: Arith)
  {
    match a.node
    case Leaf(n) => I64_MIN <= n <= I64_MAX
    case Branch(l, r, _) => Leaves64(l) && Leaves64(r)
  }

  /** Every number a job holds is an `i64`, as `read_op` guarantees. */
  predicate Jobs64(jobs: map<string, Job>)
  {
    forall name :: name in jobs && jobs[name].Constant? ==> I64_MIN <= jobs[name].value <= I64_MAX
  }

  /** Some leaf below `a` is the human. */
  predicate HasVariableLeaf(a: Arith)
  {
    match a.node
    case Leaf(_) => a.isVariable
    case Branch(l, r, _) => HasVariableLeaf(l) || HasVariableLeaf(r)
  }

  /** In a marked tree the flag says whether the human is below. */
  lemma {:induction false} MarkedMeansHuman(a: Arith)
    requires Marked(a)
    ensures a.isVariable <==> HasVariableLeaf(a)
  {
    match a.node {
      case Leaf(_) =>
      case Branch(l, r, _) =>
        MarkedMeansHuman(l);
        MarkedMeansHuman(r);
    }
  }

  /** `transform`: the tree below `name`. A missing name is a panic; a name
      met again on its own path is a cycle on which the recursion would never
      end, and `avail` holds the names not yet on the path. */
  function Transform(jobs: map<string, Job>, name: string, avail: set<string>): (r: Option<Arith>)
    ensures r.Some? ==> name in jobs && Marked(r.value)
    ensures r.Some? && r.value.node.Leaf? ==> r.value.isVariable == (name == "humn")
    ensures r.Some? ==> (r.value.node.Leaf? <==> jobs[name].Constant?)
    ensures r.Some? && Jobs64(jobs) ==> Leaves64(r.value)
    decreases |avail|
  {
    if name !in jobs || name !in avail then None
    else
      match jobs[name]
      case Constant(n) => Some(Arith(name == "humn", Leaf(n)))
      case Operation(a, b, op) =>
        var rest := avail - {name};
        match Transform(jobs, a, rest)
        case None => None
        case Some(left) =>
          match Transform(jobs, b, rest)
          case None => None
          case Some(right) => Some(Arith(left.isVariable || right.isVariable, Branch(left, right, op)))
  }

  /** The tree below `root`, with every name available. */
  function Tree(jobs: map<string, Job>): Option<Arith>
  {
    Transform(jobs, "root", jobs.Keys)
  }

  /** One `i64` operation; overflow and division by zero are panics, and
      `/` truncates toward zero. */
  function Apply(op: Op, x: int, y: int): (r: Option<int>)
    ensures r.Some? ==> I64_MIN <= r.value <= I64_MAX
    ensures op == Div && r.Some? ==> y != 0
  {
    var v := match op
      case Add => Some(x + y)
      case Sub => Some(x - y)
      case Mul => Some(x * y)
      case Div => if y == 0 then None else Some(TDiv(x, y));
    if v.Some? && I64_MIN <= v.value <= I64_MAX then v else None
  }

  /** `ArithmeticNode::eval`. */
  function Eval(a: Arith): (r: Option<int>)
    ensures r.Some? && (a.node.Branch? || Leaves64(a)) ==> I64_MIN <= r.value <= I64_MAX
  {
    match a.node
    case Leaf(n) => Some(n)
    case Branch(l, r, op) =>
      match Eval(l)
      case None => None
      case Some(x) =>
        match Eval(r)
        case None => None
        case Some(y) => Apply(op, x, y)
  }

  /** The value of the tree over unbounded integers; only a division by
      zero has none. */
  function Value(a: Arith): Option<int>
  {
    match a.node
    case Leaf(n) => Some(n)
    case Branch(l, r, op) =>
      match Value(l)
      case None => None
      case Some(x) =>
        match Value(r)
        case None => None
        case Some(y) =>
          match op
          case Add => Some(x + y)
          case Sub => Some(x - y)
          case Mul => Some(x * y)
          case Div => if y == 0 then None else Some(TDiv(x, y))
  }

  /** `eval` never wraps around: when it succeeds it gives the exact value. */
  lemma {:induction false} EvalExact(a: Arith)
    requires Eval(a).Some?
    ensures Value(a) == Eval(a)
  {
    match a.node {
      case Leaf(_) =>
      case Branch(l, r, _) =>
        EvalExact(l);
        EvalExact(r);
    }
  }

  /** `part_one`: the value of `root`; a bad line, a missing or cyclic
      name, an overflow or a division by zero is a panic. */
  function PartOne(lines: seq<string>): (r: Option<int>)
    ensures r.Some? ==>
      Jobs(lines).Some? && Tree(Jobs(lines).value).Some? && Value(Tree(Jobs(lines).value).value) == r
  {
    match Jobs(lines)
    case None => None
    case Some(jobs) =>
      match Tree(jobs)
      case None => None
      case Some(root) =>
        var r := Eval(root);
        if r.Some? then EvalExact(root); r else r
  }

  /** One turn of `part_two`'s loop undone: the value the variable operand
      must take so that the operation yields `value`, given the fixed
      operand's value. `i64` overflow and division by zero are panics. */
  function Undo(op: Op, variableLeft: bool, value: int, fixed: int): (r: Option<int>)
    ensures r.Some? ==> I64_MIN <= r.value <= I64_MAX
  {
    var v := match (op, variableLeft)
      case (Add, _) => Some(value - fixed)
      case (Sub, true) => Some(value + fixed)
      case (Sub, false) => Some(fixed - value)
      case (Mul, _) => if fixed == 0 then None else Some(TDiv(value, fixed))
      case (Div, true) => Some(value * fixed)
      case (Div, false) => if value == 0 then None else Some(TDiv(fixed, value));
    if v.Some? && I64_MIN <= v.value <= I64_MAX then v else None
  }

  /** The loop of `part_two` from `target` and `value`: descend into the
      variable operand, undoing the operation, until a leaf is reached. The
      left operand is taken as variable whenever it is marked so. */
  function Invert(target: Arith, value: int): Option<int>
  {
    match target.node
    case Leaf(_) => Some(value)
    case Branch(l, r, op) =>
      var (next, fixedSide) := if l.isVariable then (l, r) else (r, l);
      match Eval(fixedSide)
      case None => None
      case Some(fixed) =>
        match Undo(op, l.isVariable, value, fixed)
        case None => None
        case Some(v) => Invert(next, v)
  }

  /** Along the variable path, at most one operand of each operation holds
      the human. */
  predicate SinglePath(a: Arith)
  {
    match a.node
    case Leaf(_) => true
    case Branch(l, r, _) =>
      !(l.isVariable && r.isVariable) && (if l.isVariable then SinglePath(l) else SinglePath(r))
  }

  /** Every step of the inversion from `value` is exact: no division on the
      path leaves a remainder, and no division by a fixed zero occurs. */
  predicate Exact(a: Arith, value: int)
  {
    match a.node
    case Leaf(_) => true
    case Branch(l, r, op) =>
      var (next, fixedSide) := if l.isVariable then (l, r) else (r, l);
      match Eval(fixedSide)
      case None => true
      case Some(fixed) =>
        var exactHere := match (op, l.isVariable)
          case (Mul, _) => fixed != 0 && TRem(value, fixed) == 0
          case (Div, true) => fixed != 0
          case (Div, false) => fixed != 0 && value != 0 && TRem(fixed, value) == 0
          case _ => true;
        exactHere &&
          match Undo(op, l.isVariable, value, fixed)
          case None => true
          case Some(v) => Exact(next, v)
  }

  /** The tree with `h` in place of the human's number. */
  function Substitute(a: Arith, h: int): (r: Arith)
    ensures r.isVariable == a.isVariable
    ensures !a.isVariable ==> r == a
  {
    if !a.isVariable then a
    else
      match a.node
      case Leaf(_) => Arith(true, Leaf(h))
      case Branch(l, r, op) => Arith(true, Branch(Substitute(l, h), Substitute(r, h), op))
  }

  /** Undoing one step is exact: applying the operation to the undone value
      and the fixed operand yields `value` again. */
  lemma {:induction false} UndoStep(op: Op, variableLeft: bool, value: int, fixed: int)
    requires I64_MIN <= value <= I64_MAX && I64_MIN <= fixed <= I64_MAX
    requires Undo(op, variableLeft, value, fixed).Some?
    requires op == Mul ==> TRem(value, fixed) == 0
    requires op == Div ==> fixed != 0
    requires op == Div && !variableLeft ==> TRem(fixed, value) == 0
    ensures var v := Undo(op, variableLeft, value, fixed).value;
      (if variableLeft then Apply(op, v, fixed) else Apply(op, fixed, v)) == Some(value)
  {
    var v := Undo(op, variableLeft, value, fixed).value;
    match op {
      case Add =>
      case Sub =>
      case Mul =>
        TDivRem(value, fixed);
        assert v * fixed == value;
        assert fixed * v == value;
      case Div =>
        if variableLeft {
          TDivExact(value, fixed);
        } else {
          TDivRem(fixed, value);
          assert fixed == v * value;
          assert v != 0;
          TDivExact(value, v);
        }
    }
  }

  /** The inversion is correct: on a single, exact path, putting its result
      in place of the human's number makes `target` evaluate to `value`. */
  lemma {:induction false} InvertSolves(target: Arith, value: int)
    requires I64_MIN <= value <= I64_MAX
    requires Marked(target) && Leaves64(target) && target.isVariable && SinglePath(target) && Exact(target, value)
    requires Invert(target, value).Some?
    ensures Eval(Substitute(target, Invert(target, value).value)) == Some(value)
  {
    var h := Invert(target, value).value;
    match target.node {
      case Leaf(_) =>
      case Branch(l, r, op) =>
        var (next, fixedSide) := if l.isVariable then (l, r) else (r, l);
        var fixed := Eval(fixedSide).value;
        var v := Undo(op, l.isVariable, value, fixed).value;
        InvertSolves(next, v);
        UndoStep(op, l.isVariable, value, fixed);
    }
  }

  /** `part_two` up to its loop: `root` must be an operation with exactly
      one variable operand; the loop then starts from that operand and the
      value of the other. */
  function HumanValue(root: Arith): Option<int>
  {
    match root.node
    case Leaf(_) => None
    case Branch(l, r, _) =>
      if l.isVariable == r.isVariable then None
      else
        var (target, fixedSide) := if l.isVariable then (l, r) else (r, l);
        match Eval(fixedSide)
        case None => None
        case Some(value) => Invert(target, value)
  }

  /** `part_two`'s answer makes both sides of `root` equal: with it in place
      of the human's number, the variable side evaluates to the value of the
      fixed side, provided the path to the human is single and exact. */
  lemma {:induction false} HumanBalancesRoot(root: Arith)
    requires Marked(root) && Leaves64(root) && root.node.Branch?
    requires HumanValue(root).Some?
    requires var (target, fixedSide) := if root.node.left.isVariable then (root.node.left, root.node.right) else (root.node.right, root.node.left);
      SinglePath(target) && Exact(target, Eval(fixedSide).value)
    ensures var (target, fixedSide) := if root.node.left.isVariable then (root.node.left, root.node.right) else (root.node.right, root.node.left);
      Eval(Substitute(target, HumanValue(root).value)) == Eval(fixedSide)
      && Eval(Substitute(fixedSide, HumanValue(root).value)) == Eval(fixedSide)
  {
    var l, r := root.node.left, root.node.right;
    var (target, fixedSide) := if l.isVariable then (l, r) else (r, l);
    InvertSolves(target, Eval(fixedSide).value);
  }

  /** The loop of `part_two`: every turn moves one level down the variable
      path, so it ends within the depth of the tree. */
  method SolveHuman(root: Arith) returns (r: Option<int>)
    ensures r == HumanValue(root)
  {
    if root.node.Leaf? || root.node.left.isVariable == root.node.right.isVariable {
      return None;
    }
    var target, fixedSide := root.node.left, root.node.right;
    if !target.isVariable {
      target, fixedSide := fixedSide, target;
    }
    var fixed := Eval(fixedSide);
    if fixed.None? {
      return None;
    }
    var value := fixed.value;
    while target.node.Branch?
      invariant Invert(target, value) == HumanValue(root)
      decreases target
    {
      var left, right, op := target.node.left, target.node.right, target.node.op;
      var next, other := left, right;
      if !left.isVariable {
        next, other := right, left;
      }
      var f := Eval(other);
      if f.None? {
        return None;
      }
      var undone := Undo(op, left.isVariable, value, f.value);
      if undone.None? {
        return None;
      }
      target, value := next, undone.value;
    }
    return Some(value);
  }

  /** `part_two` on the puzzle's lines. */
  method PartTwo(lines: seq<string>) returns (r: Option<int>)
    ensures r.Some? ==> Jobs(lines).Some? && Tree(Jobs(lines).value).Some?
    ensures r.Some? ==> r == HumanValue(Tree(Jobs(lines).value).value)
  {
    var jobs := Jobs(lines);
    if jobs.None? {
      return None;
    }
    var root := Tree(jobs.value);
    if root.None? {
      return None;
    }
    r := SolveHuman(root.value);
  }
}
