/** Day 10: a CPU with one register and two instructions, run cycle by
    cycle as an iterator. */
module Day10 {
  import opened Common

  datatype Instruction = Noop | AddX(v: int)

  /** `Instruction::get_cycles`. */
  function Cycles(ins: Instruction): (c: nat)
    ensures 1 <= c <= 2
  {
    match ins
    case Noop => 1
    case AddX(_) => 2
  }

  /** What an instruction adds to the register once it completes. */
  function Delta(ins: Instruction): int
  {
    match ins
    case Noop => 0
    case AddX(v) => v
  }

  function Repeat(x: int, n: nat): (r: seq<int>)
    ensures |r| == n && forall i :: 0 <= i < n ==> r[i] == x
  {
    seq(n, _ => x)
  }

  /** The register value during each cycle of running `program` from
      register value `x`: an instruction holds the value for all its
      cycles, and its operand counts only from the next instruction on. */
  function Trace(x: int, program: seq<Instruction>): seq<int>
    decreases |program|
  {
    if program == [] then []
    else Repeat(x, Cycles(program[0])) + Trace(x + Delta(program[0]), program[1..])
  }

  function TotalCycles(program: seq<Instruction>): nat
  {
    if program == [] then 0 else Cycles(program[0]) + TotalCycles(program[1..])
  }

  /** The CPU yields exactly one value per cycle. */
  lemma {:induction false} TraceLength(x: int, program: seq<Instruction>)
    ensures |Trace(x, program)| == TotalCycles(program)
    decreases |program|
  {
    if program != [] {
      TraceLength(x + Delta(program[0]), program[1..]);
    }
  }

  /** An `addx` keeps the old value for both its cycles; the sum is seen
      only from the following instruction on. */
  lemma {:induction false} AddXLate(x: int, v: int, rest: seq<Instruction>)
    ensures Trace(x, [AddX(v)] + rest) == [x, x] + Trace(x + v, rest)
  {
    assert ([AddX(v)] + rest)[1..] == rest;
  }

  lemma {:induction false} NoopOneCycle(x: int, rest: seq<Instruction>)
    ensures Trace(x, [Noop] + rest) == [x] + Trace(x, rest)
  {
    assert ([Noop] + rest)[1..] == rest;
  }

  /** The CPU iterator: the register, the cycles left of the current
      instruction, the instruction last fetched, and the instruction
      source with its position. */
  class Cpu {
    var register: int
    var remCycles: nat
    var prev: Option<Instruction>
    const program: seq<Instruction>
    var pc: nat

    ghost predicate Valid()
      reads this
    {
      pc <= |program|
    }

    /** The operand still to be added once the current instruction ends. */
    function Pending(): int
      reads this
    {
      match prev
      case Some(ins) => Delta(ins)
      case None => 0
    }

    /** The values the iterator has still to yield. */
    ghost function Rest(): seq<int>
      reads this
      requires Valid()
    {
      Repeat(register, remCycles) + Trace(register + Pending(), program[pc..])
    }

    /** `CPU::new`: register 1, nothing pending. */
    constructor (program: seq<Instruction>)
      ensures Valid() && Rest() == Trace(1, program)
      ensures register == 1 && remCycles == 0 && prev.None? && this.program == program && pc == 0
    {
      register := 1;
      remCycles := 0;
      prev := None;
      this.program := program;
      pc := 0;
      new;
      assert program[0..] == program;
    }

    /** `CPU::next`: when the current instruction is done, add its operand
        and fetch the next one (or stop); then spend one cycle and yield the
        register. It yields the values of `Rest` one at a time. */
    method Next() returns (r: Option<int>)
      requires Valid()
      modifies this
      ensures Valid()
      ensures r.None? <==> old(Rest()) == []
      ensures r.Some? ==> r.value == old(Rest())[0] && Rest() == old(Rest())[1..]
    {
      ghost var rest := Rest();
      if remCycles == 0 {
        register := register + Pending();
        if pc == |program| {
          return None;
        }
        var ins := program[pc];
        assert program[pc..] == [ins] + program[pc + 1..];
        remCycles := Cycles(ins);
        prev := Some(ins);
        pc := pc + 1;
      }
      remCycles := remCycles - 1;
      r := Some(register);
      assert rest == [register] + Rest();
    }
  }

  /** The signal strengths `part_one` adds: cycle number times register
      during the 20th, 60th, 100th, … cycle. */
  function Strength(t: seq<int>): int
  {
    if t == [] then 0
    else Strength(t[..|t| - 1]) + (if (|t| - 1) % 40 == 19 then |t| * t[|t| - 1] else 0)
  }

  /** `part_one`: enumerate the CPU's values, skip 19, take every 40th. */
  method PartOne(program: seq<Instruction>) returns (sum: int)
    ensures sum == Strength(Trace(1, program))
  {
    var cpu := new Cpu(program);
    ghost var trace := Trace(1, program);
    sum := 0;
    var idx := 0;
    while true
      invariant cpu.Valid() && cpu.program == program
      invariant idx <= |trace| && cpu.Rest() == trace[idx..]
      invariant sum == Strength(trace[..idx])
      decreases |cpu.Rest()|
    {
      var r := cpu.Next();
      if r.None? {
        break;
      }
      assert trace[idx..][1..] == trace[idx + 1..];
      assert trace[..idx + 1] == trace[..idx] + [r.value];
      if idx % 40 == 19 {
        sum := sum + (idx + 1) * r.value;
      }
      idx := idx + 1;
    }
    assert trace[..idx] == trace;
  }

  /** One pixel: lit when the sprite around the register covers the
      column being drawn. */
  function Pixel(idx: nat, register: int): char
  {
    var d := idx % 40 - register;
    if -1 <= d <= 1 then '#' else '.'
  }

  /** What cycle `idx` adds to the screen: a newline before every 40th
      pixel but the first, then the pixel. */
  function Piece(idx: nat, register: int): (r: string)
    ensures |r| >= 1 && r[|r| - 1] == Pixel(idx, register)
  {
    (if idx % 40 == 0 && idx != 0 then "\n" else "") + [Pixel(idx, register)]
  }

  /** The screen `part_two` draws, one piece per cycle. */
  function Screen(t: seq<int>): string
  {
    if t == [] then [] else Screen(t[..|t| - 1]) + Piece(|t| - 1, t[|t| - 1])
  }

  /** The screen has one character per cycle plus a newline per finished
      row of 40. */
  lemma {:induction false} ScreenLength(t: seq<int>)
    ensures |Screen(t)| == |t| + (if t == [] then 0 else (|t| - 1) / 40)
  {
    if t != [] {
      ScreenLength(t[..|t| - 1]);
    }
  }

  lemma {:induction false} ScreenSnoc(t: seq<int>, v: int)
    ensures Screen(t + [v]) == Screen(t) + Piece(|t|, v)
  {
    assert (t + [v])[..|t|] == t;
  }

  method PartTwo(program: seq<Instruction>) returns (screen: string)
    ensures screen == Screen(Trace(1, program))
  {
    var cpu := new Cpu(program);
    ghost var trace := Trace(1, program);
    screen := [];
    var idx := 0;
    while true
      invariant cpu.Valid() && cpu.program == program
      invariant idx <= |trace| && cpu.Rest() == trace[idx..]
      invariant screen == Screen(trace[..idx])
      decreases |cpu.Rest()|
    {
      var r := cpu.Next();
      if r.None? {
        break;
      }
      assert trace[idx..][1..] == trace[idx + 1..];
      assert trace[..idx + 1] == trace[..idx] + [r.value];
      ScreenSnoc(trace[..idx], r.value);
      screen := screen + Piece(idx, r.value);
      idx := idx + 1;
    }
    assert trace[..idx] == trace;
  }

  /** One line of `read_instructions`: "noop", or "addx" and an `i32`;
      anything else panics. */
  function ParseLine(line: string): Option<Instruction>
  {
    var words := Split(line, " ");
    if words[0] == "noop" then Some(Noop)
    else if words[0] == "addx" && |words| >= 2 then
      match ParseInt(words[1], I32_MIN, I32_MAX)
      case Some(v) => Some(AddX(v))
      case None => None
    else None
  }

  function ReadInstructions(lines: seq<string>): (program: seq<Instruction>)
    requires forall i :: 0 <= i < |lines| ==> ParseLine(lines[i]).Some?
    ensures |program| == |lines| && forall i :: 0 <= i < |lines| ==> Some(program[i]) == ParseLine(lines[i])
  {
    seq(|lines|, i requires 0 <= i < |lines| => ParseLine(lines[i]).value)
  }

  lemma {:induction false} SplitAddX()
    ensures Split("addx -5", " ") == ["addx", "-5"]
  {
    var line := "addx -5";
    assert line[0..1] == "a" && line[1..2] == "d" && line[2..3] == "d" && line[3..4] == "x";
    assert line[4..5] == " " && line[5..] == "-5";
    assert IndexOf(line, " ", 0) == Some(4);
    assert line[..4] == "addx";
    assert "-5"[0..1] == "-" && "-5"[1..2] == "5";
    assert IndexOf("-5", " ", 0).None?;
    assert SplitOnce(line, " ") == Some(("addx", "-5"));
    assert SplitOnce("-5", " ").None?;
  }

  /** "addx -5" reads as an `addx` of -5. */
  lemma {:induction false} ParseAddX()
    ensures ParseLine("addx -5") == Some(AddX(-5))
  {
    SplitAddX();
    assert "-5"[1..] == "5";
    assert "5"[..0] == [] && DecimalValue("5") == 5;
  }

  /** The small program of the puzzle, noop, addx 3, addx -5, runs five
      cycles with register values 1, 1, 1, 4, 4. */
  lemma {:induction false} SmallProgram()
    ensures Trace(1, [Noop, AddX(3), AddX(-5)]) == [1, 1, 1, 4, 4]
  {
    AddXLate(4, -5, []);
    AddXLate(1, 3, [AddX(-5)]);
    NoopOneCycle(1, [AddX(3), AddX(-5)]);
  }
}
