/** Day 5: reading the stacks of crates, the two cranes that rearrange them,
    and the crates left on top. */
module Day05Crane {
  import opened Common
  import opened Day05

  /** The stacks, each listed from the bottom crate to the top one. */
  type Bay = seq<seq<char>>

  function Reverse(s: seq<char>): (r: seq<char>)
    ensures |r| == |s| && forall i :: 0 <= i < |s| ==> r[i] == s[|s| - 1 - i]
  {
    seq(|s|, i requires 0 <= i < |s| => s[|s| - 1 - i])
  }

  /** Every row holds at least one column. */
  predicate Rows(rows: seq<seq<Option<char>>>)
  {
    forall i :: 0 <= i < |rows| ==> |rows[i]| >= 1
  }

  /** The rows of crates above the line of stack numbers, top row first,
      and the input after that line. */
  function BayRowsFrom(s: string, done: seq<seq<Option<char>>>): (r: Option<(seq<seq<Option<char>>>, string)>)
    ensures r.Some? && Rows(done) ==> Rows(r.value.0)
    decreases |s|
  {
    match BayRow(s)
    case None => None
    case Some((Some(items), rest)) => BayRowsFrom(rest, done + [items])
    case Some((None, rest)) => Some((done, rest))
  }

  /** One row pushed onto the stacks: the first row makes one stack per
      column; a crate in a column goes on top of that column's stack, and
      columns beyond the stacks are ignored, as `zip` does. */
  function AddRow(stacks: Bay, items: seq<Option<char>>): (r: Bay)
    ensures |r| == if stacks == [] then |items| else |stacks|
  {
    var base: Bay := if stacks == [] then seq(|items|, _ => []) else stacks;
    seq(|base|, k requires 0 <= k < |base| =>
      if k < |items| && items[k].Some? then base[k] + [items[k].value] else base[k])
  }

  /** The stacks after pushing the rows in order. */
  function Stack(rows: seq<seq<Option<char>>>): Bay
  {
    if rows == [] then [] else AddRow(Stack(rows[..|rows| - 1]), rows[|rows| - 1])
  }

  /** The crates of column `k`, top row first. */
  function Column(rows: seq<seq<Option<char>>>, k: nat): seq<char>
  {
    if rows == [] then []
    else
      var last := rows[|rows| - 1];
      Column(rows[..|rows| - 1], k) + (if k < |last| && last[k].Some? then [last[k].value] else [])
  }

  /** Pushing the rows top row first gives one stack per column of the first
      row, holding the crates of that column from the top row down. */
  lemma {:induction false} StackColumns(rows: seq<seq<Option<char>>>)
    requires Rows(rows)
    ensures |Stack(rows)| == if rows == [] then 0 else |rows[0]|
    ensures forall k :: 0 <= k < |Stack(rows)| ==> Stack(rows)[k] == Column(rows, k)
    decreases |rows|
  {
    if rows != [] {
      var front := rows[..|rows| - 1];
      var last := rows[|rows| - 1];
      StackColumns(front);
      var below := Stack(front);
      assert Stack(rows) == AddRow(below, last);
      if front != [] {
        assert front[0] == rows[0];
      }
      forall k | 0 <= k < |Stack(rows)|
        ensures Stack(rows)[k] == Column(rows, k)
      {
        var here := if k < |last| && last[k].Some? then [last[k].value] else [];
        assert Column(rows, k) == Column(front, k) + here;
        if front == [] {
          assert Column(front, k) == [];
          assert AddRow(below, last)[k] == [] + here;
        } else {
          assert AddRow(below, last)[k] == below[k] + here;
        }
      }
    }
  }

  /** Every stack turned upside down. */
  function ReverseEach(stacks: Bay): (r: Bay)
    ensures |r| == |stacks| && forall k :: 0 <= k < |r| ==> r[k] == Reverse(stacks[k])
  {
    seq(|stacks|, k requires 0 <= k < |stacks| => Reverse(stacks[k]))
  }

  /** `read_bay`'s result: the stacks reversed, so that each lists its
      crates from the bottom up, and the input after the line of numbers. */
  function ReadBaySpec(s: string): Option<(Bay, string)>
  {
    match BayRowsFrom(s, [])
    case None => None
    case Some((rows, rest)) =>
      Some((ReverseEach(Stack(rows)), rest))
  }

  /** Each stack read holds its column's crates bottom first, so the crate
      drawn highest in a column is the top of its stack. */
  lemma {:induction false} ReadBayColumns(s: string)
    requires ReadBaySpec(s).Some?
    ensures var (bay, _) := ReadBaySpec(s).value;
      var rows := BayRowsFrom(s, []).value.0;
      |bay| == (if rows == [] then 0 else |rows[0]|)
      && (forall k :: 0 <= k < |bay| ==> bay[k] == Reverse(Column(rows, k)))
      && (forall k :: 0 <= k < |bay| && Column(rows, k) != [] ==> bay[k][|bay[k]| - 1] == Column(rows, k)[0])
  {
    StackColumns(BayRowsFrom(s, []).value.0);
  }

  /** One row of `read_bay`: the first row creates the stacks, then every
      crate of the row goes on top of its column's stack. */
  method PushRow(stacks: Bay, items: seq<Option<char>>) returns (r: Bay)
    ensures r == AddRow(stacks, items)
  {
    r := stacks;
    if r == [] {
      for k := 0 to |items|
        invariant |r| == k && forall j :: 0 <= j < k ==> r[j] == []
      {
        r := r + [[]];
      }
    }
    ghost var wide := r;
    for k := 0 to if |items| < |r| then |items| else |r|
      invariant |r| == |wide|
      invariant forall j :: 0 <= j < |r| ==>
        r[j] == if j < k && items[j].Some? then wide[j] + [items[j].value] else wide[j]
    {
      if items[k].Some? {
        r := r[k := r[k] + [items[k].value]];
      }
    }
  }

  /** The end of `read_bay`: every stack reversed in place. */
  method ReverseStacks(stacks: Bay) returns (r: Bay)
    ensures r == ReverseEach(stacks)
  {
    r := stacks;
    for k := 0 to |r|
      invariant |r| == |stacks|
      invariant forall j :: 0 <= j < |r| ==> r[j] == if j < k then Reverse(stacks[j]) else stacks[j]
    {
      r := r[k := Reverse(r[k])];
    }
  }

  /** `read_bay`: read rows until the line of stack numbers, pushing each
      row's crates, then reverse every stack. */
  method ReadBay(input: string) returns (r: Option<(Bay, string)>)
    ensures r == ReadBaySpec(input)
  {
    var s := input;
    var stacks: Bay := [];
    ghost var done: seq<seq<Option<char>>> := [];
    while true
      invariant BayRowsFrom(s, done) == BayRowsFrom(input, [])
      invariant stacks == Stack(done)
      decreases |s|
    {
      var row := BayRow(s);
      if row.None? {
        return None;
      }
      var (line, rest) := row.value;
      match line {
        case Some(items) =>
          stacks := PushRow(stacks, items);
          assert (done + [items])[..|done|] == done;
          done := done + [items];
          s := rest;
        case None =>
          assert BayRowsFrom(input, []) == Some((done, rest));
          stacks := ReverseStacks(stacks);
          return Some((stacks, rest));
      }
    }
  }

  /** `read_input`: the drawing, a newline, then the procedure; `None` where
      the parse fails and `unwrap` would panic. */
  function ReadInputSpec(s: string): Option<(Bay, seq<Instruction>)>
  {
    match ReadBaySpec(s)
    case None => None
    case Some((bay, rest)) =>
      if |rest| >= 1 && rest[0] == '\n' then
        match Instructions(rest[1..])
        case None => None
        case Some(instructions) => Some((bay, instructions))
      else None
  }

  method ReadInput(s: string) returns (r: Option<(Bay, seq<Instruction>)>)
    ensures r == ReadInputSpec(s)
  {
    var read := ReadBay(s);
    if read.None? {
      return None;
    }
    var (bay, rest) := read.value;
    if |rest| >= 1 && rest[0] == '\n' {
      var instructions := Instructions(rest[1..]);
      if instructions.Some? {
        return Some((bay, instructions.value));
      }
    }
    return None;
  }

  /** The number of crates in the bay. */
  function Total(bay: Bay): nat
  {
    if bay == [] then 0 else Total(bay[..|bay| - 1]) + |bay[|bay| - 1]|
  }

  lemma {:induction false} TotalUpdate(bay: Bay, i: nat, s: seq<char>)
    requires i < |bay|
    ensures Total(bay[i := s]) + |bay[i]| == Total(bay) + |s|
    decreases |bay|
  {
    var n := |bay| - 1;
    assert bay[i := s][..n] == if i == n then bay[..n] else bay[..n][i := s];
    if i < n {
      TotalUpdate(bay[..n], i, s);
    }
  }

  /** One pass of the CrateMover 9000's inner loop: the top crate of stack
      `from` (numbered from 1) is popped and pushed onto stack `to`. A stack
      number out of range or an empty stack is a panic. */
  function MoveOne(bay: Bay, from: nat, to: nat): Option<Bay>
  {
    if from == 0 || from > |bay| || bay[from - 1] == [] then None
    else if to == 0 || to > |bay| then None
    else
      var col := bay[from - 1];
      var popped := bay[from - 1 := col[..|col| - 1]];
      Some(popped[to - 1 := popped[to - 1] + [col[|col| - 1]]])
  }

  /** The CrateMover 9000 carrying out `n` pops and pushes. */
  function Singly(bay: Bay, from: nat, to: nat, n: nat): Option<Bay>
    decreases n
  {
    if n == 0 then Some(bay)
    else
      match MoveOne(bay, from, to)
      case None => None
      case Some(next) => Singly(next, from, to, n - 1)
  }

  /** The CrateMover 9001: the top `count` crates of stack `from` are split
      off and appended to stack `to` in the same order. A stack number out of
      range or a stack with fewer than `count` crates is a panic. */
  function Lift(bay: Bay, ins: Instruction): Option<Bay>
  {
    if ins.from == 0 || ins.from > |bay| then None
    else
      var col := bay[ins.from - 1];
      if ins.count > |col| then None
      else
        var rest := bay[ins.from - 1 := col[..|col| - ins.count]];
        if ins.to == 0 || ins.to > |bay| then None
        else Some(rest[ins.to - 1 := rest[ins.to - 1] + col[|col| - ins.count..]])
  }

  /** One pop and push between distinct stacks. */
  lemma {:induction false} MoveOneDistinct(bay: Bay, from: nat, to: nat)
    requires 1 <= from <= |bay| && 1 <= to <= |bay| && from != to && bay[from - 1] != []
    ensures var col := bay[from - 1];
      MoveOne(bay, from, to) == Some(bay[from - 1 := col[..|col| - 1]][to - 1 := bay[to - 1] + [col[|col| - 1]]])
  {
  }

  /** The stacks once the top `n` crates of `from` lie reversed on `to`. */
  function Moved(bay: Bay, from: nat, to: nat, n: nat): Bay
    requires 1 <= from <= |bay| && 1 <= to <= |bay| && n <= |bay[from - 1]|
  {
    var col := bay[from - 1];
    bay[from - 1 := col[..|col| - n]][to - 1 := bay[to - 1] + Reverse(col[|col| - n..])]
  }

  /** Moving one crate and then `n - 1` is moving `n`. */
  lemma {:induction false} MovedStep(bay: Bay, from: nat, to: nat, n: nat)
    requires 1 <= from <= |bay| && 1 <= to <= |bay| && from != to && 0 < n <= |bay[from - 1]|
    ensures var col := bay[from - 1];
      var next := bay[from - 1 := col[..|col| - 1]][to - 1 := bay[to - 1] + [col[|col| - 1]]];
      Moved(next, from, to, n - 1) == Moved(bay, from, to, n)
  {
    var col := bay[from - 1];
    var m := |col| - 1;
    var next := bay[from - 1 := col[..m]][to - 1 := bay[to - 1] + [col[m]]];
    assert next[from - 1] == col[..m];
    assert col[..m][..m - (n - 1)] == col[..|col| - n];
    assert col[..m][m - (n - 1)..] == col[|col| - n..m];
    var block := col[|col| - n..];
    assert Reverse(block) == [col[m]] + Reverse(col[|col| - n..m]);
    var y := bay[to - 1] + Reverse(block);
    assert next[to - 1] + Reverse(col[|col| - n..m]) == y;
    assert next[from - 1 := col[..|col| - n]][to - 1 := y] == bay[from - 1 := col[..|col| - n]][to - 1 := y];
  }

  /** The 9000 with distinct stacks: `n` crates leave the top of `from` and
      land on `to` in reverse order; every other stack is unchanged. */
  lemma {:induction false} SinglyMoves(bay: Bay, from: nat, to: nat, n: nat)
    requires 1 <= from <= |bay| && 1 <= to <= |bay| && from != to
    ensures Singly(bay, from, to, n) == if n > |bay[from - 1]| then None else Some(Moved(bay, from, to, n))
    decreases n
  {
    var col := bay[from - 1];
    if n == 0 {
      assert col[..|col|] == col;
      assert bay[to - 1] + Reverse(col[|col|..]) == bay[to - 1];
      assert bay[from - 1 := col][to - 1 := bay[to - 1]] == bay;
    } else if col != [] {
      var next := bay[from - 1 := col[..|col| - 1]][to - 1 := bay[to - 1] + [col[|col| - 1]]];
      MoveOneDistinct(bay, from, to);
      SinglyMoves(next, from, to, n - 1);
      if n <= |col| {
        MovedStep(bay, from, to, n);
      }
    }
  }

  /** The 9000 moving within one stack leaves it as it was, as long as the
      stack is not empty. */
  lemma {:induction false} SinglyInPlace(bay: Bay, from: nat, n: nat)
    requires 1 <= from <= |bay|
    ensures Singly(bay, from, from, n) == if n > 0 && bay[from - 1] == [] then None else Some(bay)
    decreases n
  {
    if n > 0 && bay[from - 1] != [] {
      var col := bay[from - 1];
      var popped := bay[from - 1 := col[..|col| - 1]];
      assert popped[from - 1] + [col[|col| - 1]] == col;
      assert popped[from - 1 := col] == bay;
      SinglyInPlace(bay, from, n - 1);
    }
  }

  /** The 9001 between distinct stacks, when `from` holds enough crates. */
  lemma {:induction false} LiftDistinct(bay: Bay, ins: Instruction)
    requires 1 <= ins.from <= |bay| && 1 <= ins.to <= |bay| && ins.from != ins.to
    requires ins.count <= |bay[ins.from - 1]|
    ensures var col := bay[ins.from - 1];
      Lift(bay, ins) == Some(bay[ins.from - 1 := col[..|col| - ins.count]][ins.to - 1 := bay[ins.to - 1] + col[|col| - ins.count..]])
  {
  }

  /** The 9001 within one stack puts the block back where it was. */
  lemma {:induction false} LiftInPlace(bay: Bay, ins: Instruction)
    requires 1 <= ins.from <= |bay| && ins.to == ins.from
    requires ins.count <= |bay[ins.from - 1]|
    ensures Lift(bay, ins) == Some(bay)
  {
    var f := ins.from;
    var col := bay[f - 1];
    var rest := bay[f - 1 := col[..|col| - ins.count]];
    assert rest[f - 1] + col[|col| - ins.count..] == col;
    assert rest[f - 1 := col] == bay;
  }

  /** Between distinct stacks, the 9000's result is the 9001's with the
      block on `to` turned upside down. */
  lemma {:induction false} FlipLifted(bay: Bay, ins: Instruction)
    requires 1 <= ins.from <= |bay| && 1 <= ins.to <= |bay| && ins.from != ins.to
    requires ins.count <= |bay[ins.from - 1]|
    ensures Lift(bay, ins).Some?
    ensures var after := Lift(bay, ins).value;
      var top := after[ins.to - 1];
      after[ins.to - 1 := top[..|top| - ins.count] + Reverse(top[|top| - ins.count..])] == Moved(bay, ins.from, ins.to, ins.count)
  {
    var f, t := ins.from, ins.to;
    var col := bay[f - 1];
    LiftDistinct(bay, ins);
    var block := col[|col| - ins.count..];
    var rest := bay[f - 1 := col[..|col| - ins.count]];
    var after := rest[t - 1 := bay[t - 1] + block];
    var top := after[t - 1];
    assert top[..|top| - ins.count] == bay[t - 1];
    assert top[|top| - ins.count..] == block;
  }

  /** The two cranes fail on the same instructions between distinct stacks
      (within one stack the 9000 also survives moving more crates than the
      stack holds). */
  lemma {:induction false} CranesFailTogether(bay: Bay, ins: Instruction)
    requires ins.count > 0 && ins.from != ins.to
    ensures Lift(bay, ins).None? <==> Singly(bay, ins.from, ins.to, ins.count).None?
  {
    var f, t := ins.from, ins.to;
    if 1 <= f <= |bay| && 1 <= t <= |bay| {
      SinglyMoves(bay, f, t, ins.count);
      if ins.count <= |bay[f - 1]| {
        LiftDistinct(bay, ins);
      }
    } else if 1 <= f <= |bay| && bay[f - 1] != [] {
      assert MoveOne(bay, f, t).None?;
    }
  }

  /** Where the 9001 succeeds, the 9000 ends with the same stacks, except
      that the block it carried lies upside down on `to`. */
  lemma {:induction false} CranesAgree(bay: Bay, ins: Instruction)
    requires ins.count > 0 && Lift(bay, ins).Some?
    ensures var after := Lift(bay, ins).value;
      var top := after[ins.to - 1];
      Singly(bay, ins.from, ins.to, ins.count) ==
        if ins.from == ins.to then Some(after)
        else Some(after[ins.to - 1 := top[..|top| - ins.count] + Reverse(top[|top| - ins.count..])])
  {
    var f, t := ins.from, ins.to;
    if f == t {
      SinglyInPlace(bay, f, ins.count);
      LiftInPlace(bay, ins);
    } else {
      SinglyMoves(bay, f, t, ins.count);
      FlipLifted(bay, ins);
    }
  }

  /** The 9001 keeps the number of crates, moves the block onto `to` in its
      order, and touches no stack but `from` and `to`. */
  lemma {:induction false} LiftConserves(bay: Bay, ins: Instruction)
    requires Lift(bay, ins).Some?
    ensures var after := Lift(bay, ins).value;
      |after| == |bay| && Total(after) == Total(bay)
      && (forall k :: 0 <= k < |bay| && k != ins.from - 1 && k != ins.to - 1 ==> after[k] == bay[k])
      && (ins.from != ins.to ==> after[ins.to - 1] == bay[ins.to - 1] + bay[ins.from - 1][|bay[ins.from - 1]| - ins.count..])
  {
    var col := bay[ins.from - 1];
    var keep := col[..|col| - ins.count];
    var rest := bay[ins.from - 1 := keep];
    var block := col[|col| - ins.count..];
    TotalUpdate(bay, ins.from - 1, keep);
    TotalUpdate(rest, ins.to - 1, rest[ins.to - 1] + block);
  }

  /** The 9000 keeps the number of crates and touches no stack but `from`
      and `to`. */
  lemma {:induction false} SinglyConserves(bay: Bay, from: nat, to: nat, n: nat)
    requires Singly(bay, from, to, n).Some?
    ensures var after := Singly(bay, from, to, n).value;
      |after| == |bay| && Total(after) == Total(bay)
      && forall k :: 0 <= k < |bay| && k != from - 1 && k != to - 1 ==> after[k] == bay[k]
    decreases n
  {
    if n > 0 {
      var col := bay[from - 1];
      var popped := bay[from - 1 := col[..|col| - 1]];
      var next := MoveOne(bay, from, to).value;
      TotalUpdate(bay, from - 1, col[..|col| - 1]);
      TotalUpdate(popped, to - 1, popped[to - 1] + [col[|col| - 1]]);
      SinglyConserves(next, from, to, n - 1);
    }
  }

  /** `part_one`'s loop over the procedure. */
  function RunSingly(bay: Bay, instructions: seq<Instruction>): Option<Bay>
    decreases |instructions|
  {
    if instructions == [] then Some(bay)
    else
      var ins := instructions[0];
      match Singly(bay, ins.from, ins.to, ins.count)
      case None => None
      case Some(next) => RunSingly(next, instructions[1..])
  }

  /** `part_two`'s loop over the procedure. */
  function RunLift(bay: Bay, instructions: seq<Instruction>): Option<Bay>
    decreases |instructions|
  {
    if instructions == [] then Some(bay)
    else
      match Lift(bay, instructions[0])
      case None => None
      case Some(next) => RunLift(next, instructions[1..])
  }

  /** Neither crane loses or gains a crate or a stack over a whole procedure. */
  lemma {:induction false} RunsConserve(bay: Bay, instructions: seq<Instruction>)
    ensures RunSingly(bay, instructions).Some? ==>
      |RunSingly(bay, instructions).value| == |bay| && Total(RunSingly(bay, instructions).value) == Total(bay)
    ensures RunLift(bay, instructions).Some? ==>
      |RunLift(bay, instructions).value| == |bay| && Total(RunLift(bay, instructions).value) == Total(bay)
    decreases |instructions|
  {
    if instructions != [] {
      var ins := instructions[0];
      if Singly(bay, ins.from, ins.to, ins.count).Some? {
        SinglyConserves(bay, ins.from, ins.to, ins.count);
        RunsConserve(Singly(bay, ins.from, ins.to, ins.count).value, instructions[1..]);
      }
      if Lift(bay, ins).Some? {
        LiftConserves(bay, ins);
        RunsConserve(Lift(bay, ins).value, instructions[1..]);
      }
    }
  }

  /** One instruction for the CrateMover 9000: `count` pops and pushes. */
  method MoveCrates(bay: Bay, ins: Instruction) returns (r: Option<Bay>)
    ensures r == Singly(bay, ins.from, ins.to, ins.count)
  {
    var current := bay;
    for k := 0 to ins.count
      invariant Singly(current, ins.from, ins.to, ins.count - k) == Singly(bay, ins.from, ins.to, ins.count)
    {
      if ins.from == 0 || ins.from > |current| || current[ins.from - 1] == [] {
        return None;
      }
      var col := current[ins.from - 1];
      var item := col[|col| - 1];
      current := current[ins.from - 1 := col[..|col| - 1]];
      if ins.to == 0 || ins.to > |current| {
        return None;
      }
      current := current[ins.to - 1 := current[ins.to - 1] + [item]];
    }
    return Some(current);
  }

  /** The crates on top of the stacks, left to right; an empty stack is a
      panic. */
  function TopsSpec(bay: Bay): (r: Option<string>)
    ensures r.Some? <==> forall k :: 0 <= k < |bay| ==> bay[k] != []
    ensures r.Some? ==> |r.value| == |bay| && forall k :: 0 <= k < |bay| ==> r.value[k] == bay[k][|bay[k]| - 1]
    decreases |bay|
  {
    if bay == [] then Some([])
    else if bay[0] == [] then None
    else match TopsSpec(bay[1..])
      case None => None
      case Some(rest) => Some([bay[0][|bay[0]| - 1]] + rest)
  }

  /** `get_output`. */
  method GetOutput(bay: Bay) returns (r: Option<string>)
    ensures r == TopsSpec(bay)
  {
    var output := "";
    for k := 0 to |bay|
      invariant |output| == k && forall j :: 0 <= j < k ==> bay[j] != [] && output[j] == bay[j][|bay[j]| - 1]
    {
      if bay[k] == [] {
        return None;
      }
      output := output + [bay[k][|bay[k]| - 1]];
    }
    assert TopsSpec(bay).Some?;
    assert TopsSpec(bay).value == output;
    return Some(output);
  }

  /** `part_one`: the tops after the CrateMover 9000 runs the procedure. */
  function PartOneSpec(input: string): Option<string>
  {
    match ReadInputSpec(input)
    case None => None
    case Some((bay, instructions)) =>
      match RunSingly(bay, instructions)
      case None => None
      case Some(after) => TopsSpec(after)
  }

  /** `part_two`: the tops after the CrateMover 9001 runs the procedure. */
  function PartTwoSpec(input: string): Option<string>
  {
    match ReadInputSpec(input)
    case None => None
    case Some((bay, instructions)) =>
      match RunLift(bay, instructions)
      case None => None
      case Some(after) => TopsSpec(after)
  }

  method PartOne(input: string) returns (r: Option<string>)
    ensures r == PartOneSpec(input)
  {
    var read := ReadInput(input);
    if read.None? {
      return None;
    }
    var (bay, instructions) := read.value;
    for i := 0 to |instructions|
      invariant RunSingly(bay, instructions[i..]) == RunSingly(read.value.0, instructions)
    {
      var next := MoveCrates(bay, instructions[i]);
      if next.None? {
        return None;
      }
      bay := next.value;
    }
    r := GetOutput(bay);
  }

  method PartTwo(input: string) returns (r: Option<string>)
    ensures r == PartTwoSpec(input)
  {
    var read := ReadInput(input);
    if read.None? {
      return None;
    }
    var (bay, instructions) := read.value;
    for i := 0 to |instructions|
      invariant RunLift(bay, instructions[i..]) == RunLift(read.value.0, instructions)
    {
      var ins := instructions[i];
      if ins.from == 0 || ins.from > |bay| || ins.count > |bay[ins.from - 1]| {
        return None;
      }
      var col := bay[ins.from - 1];
      var items := col[|col| - ins.count..];
      bay := bay[ins.from - 1 := col[..|col| - ins.count]];
      if ins.to == 0 || ins.to > |bay| {
        return None;
      }
      bay := bay[ins.to - 1 := bay[ins.to - 1] + items];
    }
    r := GetOutput(bay);
  }
}
