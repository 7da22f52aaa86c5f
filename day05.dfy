/** Day 5: the parsers of the drawing of the crate stacks and of the
    rearrangement procedure. Each parser reads a prefix of its input and
    returns what it read with the rest of the input, or `None` where the
    parser fails. */
module Day05 {
  import opened Common

  /** `move {count} from {from} to {to}`; stacks are numbered from 1. */
  datatype Instruction = Instruction(from: nat, to: nat, count: nat)

  /** `char::is_alphabetic`, on the ASCII letters. */
  predicate IsAlphabetic(c: char)
  {
    'A' <= c <= 'Z' || 'a' <= c <= 'z'
  }

  /** `char::is_numeric`, on the ASCII digits. */
  predicate IsNumeric(c: char)
  {
    '0' <= c <= '9'
  }

  /** `read_bay_item`: `[X]` for a crate `X`, or three spaces for no crate. */
  function BayItem(s: string): (r: Option<(Option<char>, string)>)
    ensures r.Some? ==> |s| >= 3 && r.value.1 == s[3..]
  {
    if |s| >= 3 && s[0] == '[' && IsAlphabetic(s[1]) && s[2] == ']' then Some((Some(s[1]), s[3..]))
    else if |s| >= 3 && s[..3] == "   " then Some((None, s[3..]))
    else None
  }

  /** The loop of `separated_list1(tag(" "), read_bay_item)` after its first
      item: a space followed by an item adds the item; otherwise the list
      ends before the space. */
  function MoreItems(items: seq<Option<char>>, s: string): (r: (seq<Option<char>>, string))
    ensures |r.1| <= |s| && |r.0| >= |items|
    decreases |s|
  {
    if |s| >= 1 && s[0] == ' ' then
      match BayItem(s[1..])
      case Some((item, rest)) => MoreItems(items + [item], rest)
      case None => (items, s)
    else (items, s)
  }

  /** `read_bay_line`: items separated by single spaces, at least one. */
  function BayLine(s: string): (r: Option<(seq<Option<char>>, string)>)
    ensures r.Some? ==> |r.value.1| < |s| && |r.value.0| >= 1
  {
    match BayItem(s)
    case None => None
    case Some((item, rest)) => Some(MoreItems([item], rest))
  }

  /** One stack number, ` d `. */
  function RowNumber(s: string): (r: Option<string>)
    ensures r.Some? ==> |s| >= 3 && r.value == s[3..]
  {
    if |s| >= 3 && s[0] == ' ' && IsNumeric(s[1]) && s[2] == ' ' then Some(s[3..]) else None
  }

  function MoreNumbers(s: string): (r: string)
    ensures |r| <= |s|
    decreases |s|
  {
    if |s| >= 1 && s[0] == ' ' then
      match RowNumber(s[1..])
      case Some(rest) => MoreNumbers(rest)
      case None => s
    else s
  }

  /** The line of stack numbers that ends the drawing. */
  function EndLine(s: string): (r: Option<string>)
    ensures r.Some? ==> |r.value| < |s|
  {
    match RowNumber(s)
    case None => None
    case Some(rest) => Some(MoreNumbers(rest))
  }

  /** One line of the drawing with its newline: `Some(items)` for a row of
      crates, `None` for the line of stack numbers. A row of crates is tried
      first; once it is read the newline must follow. */
  function BayRow(s: string): (r: Option<(Option<seq<Option<char>>>, string)>)
    ensures r.Some? ==> |r.value.1| < |s|
    ensures r.Some? && r.value.0.Some? ==> |r.value.0.value| >= 1
  {
    var row: Option<(Option<seq<Option<char>>>, string)> :=
      match BayLine(s)
      case Some((items, rest)) => Some((Some(items), rest))
      case None =>
        match EndLine(s)
        case Some(rest) => Some((None, rest))
        case None => None;
    match row
    case None => None
    case Some((line, rest)) => if |rest| >= 1 && rest[0] == '\n' then Some((line, rest[1..])) else None
  }

  /** `read_instruction`. */
  function ReadInstruction(s: string): (r: Option<(Instruction, string)>)
    ensures r.Some? ==> |r.value.1| < |s|
  {
    match Tag(s, "move ")
    case None => None
    case Some(s1) =>
      match Number(s1, U64_MAX)
      case None => None
      case Some((count, s2)) =>
        match Tag(s2, " from ")
        case None => None
        case Some(s3) =>
          match Number(s3, U64_MAX)
          case None => None
          case Some((from, s4)) =>
            match Tag(s4, " to ")
            case None => None
            case Some(s5) =>
              match Number(s5, U64_MAX)
              case None => None
              case Some((to, s6)) => Some((Instruction(from, to, count), s6))
  }

  /** The loop of `separated_list1(newline, read_instruction)`. */
  function MoreInstructions(acc: seq<Instruction>, s: string): (r: (seq<Instruction>, string))
    ensures |r.0| >= |acc|
    decreases |s|
  {
    if |s| >= 1 && s[0] == '\n' then
      match ReadInstruction(s[1..])
      case Some((ins, rest)) => MoreInstructions(acc + [ins], rest)
      case None => (acc, s)
    else (acc, s)
  }

  /** The procedure: instructions separated by newlines, at least one. */
  function Instructions(s: string): (r: Option<seq<Instruction>>)
    ensures r.Some? ==> |r.value| >= 1
  {
    match ReadInstruction(s)
    case None => None
    case Some((ins, rest)) => Some(MoreInstructions([ins], rest).0)
  }

  /** The test of `read_bay_item`: `[A]` is the crate `A`. */
  lemma {:induction false} BayItemExample(s: string)
    requires s == "[A]"
    ensures BayItem(s) == Some((Some('A'), ""))
  {
  }

  /** The test of `read_bay_line`: `[N] [C]    ` is the crates N and C and
      a third column with no crate. */
  lemma {:induction false} BayLineExample(s: string)
    requires s == "[N] [C]    "
    ensures BayLine(s) == Some(([Some('N'), Some('C'), None], ""))
  {
    var items := [Some('N'), Some('C'), None];
    assert ShowLine(items[2..]) == "   ";
    assert ShowLine(items[1..]) == "[C]" + " " + "   ";
    assert s == ShowLine(items) + "";
    LineRoundTrip(items, "");
  }

  function ShowItem(item: Option<char>): (t: string)
    ensures |t| == 3
  {
    match item
    case Some(c) => ['[', c, ']']
    case None => "   "
  }

  /** A row of the drawing: the items separated by single spaces. */
  function ShowLine(items: seq<Option<char>>): string
    requires |items| >= 1
  {
    if |items| == 1 then ShowItem(items[0]) else ShowItem(items[0]) + " " + ShowLine(items[1..])
  }

  predicate Crates(items: seq<Option<char>>)
  {
    forall i :: 0 <= i < |items| && items[i].Some? ==> IsAlphabetic(items[i].value)
  }

  lemma {:induction false} ItemRoundTrip(item: Option<char>, rest: string)
    requires item.Some? ==> IsAlphabetic(item.value)
    ensures BayItem(ShowItem(item) + rest) == Some((item, rest))
  {
    var s := ShowItem(item) + rest;
    assert s[..3] == ShowItem(item) && s[3..] == rest;
  }

  lemma {:induction false} MoreItemsRoundTrip(acc: seq<Option<char>>, items: seq<Option<char>>, rest: string)
    requires |items| >= 1 && Crates(items)
    requires rest == [] || rest[0] != ' '
    ensures MoreItems(acc, " " + ShowLine(items) + rest) == (acc + items, rest)
    decreases |items|
  {
    var s := " " + ShowLine(items) + rest;
    assert s[1..] == ShowLine(items) + rest;
    if |items| == 1 {
      ItemRoundTrip(items[0], rest);
      assert MoreItems(acc + [items[0]], rest) == (acc + [items[0]], rest);
      assert items == [items[0]];
    } else {
      var tail := " " + ShowLine(items[1..]) + rest;
      assert ShowLine(items) + rest == ShowItem(items[0]) + tail;
      ItemRoundTrip(items[0], tail);
      MoreItemsRoundTrip(acc + [items[0]], items[1..], rest);
      AppendHead(acc, items);
    }
  }

  lemma {:induction false} AppendHead(acc: seq<Option<char>>, items: seq<Option<char>>)
    requires |items| >= 1
    ensures acc + [items[0]] + items[1..] == acc + items
  {
    assert [items[0]] + items[1..] == items;
  }

  /** A row of crates is read back from its drawing, whatever line follows. */
  lemma {:induction false} LineRoundTrip(items: seq<Option<char>>, rest: string)
    requires |items| >= 1 && Crates(items)
    requires rest == [] || rest[0] != ' '
    ensures BayLine(ShowLine(items) + rest) == Some((items, rest))
  {
    if |items| == 1 {
      ItemRoundTrip(items[0], rest);
      assert items == [items[0]];
    } else {
      var tail := " " + ShowLine(items[1..]) + rest;
      assert ShowLine(items) + rest == ShowItem(items[0]) + tail;
      ItemRoundTrip(items[0], tail);
      MoreItemsRoundTrip([items[0]], items[1..], rest);
      assert [items[0]] + items[1..] == items;
    }
  }

  function ShowInstruction(ins: Instruction): string
  {
    "move " + Decimal(ins.count) + " from " + Decimal(ins.from) + " to " + Decimal(ins.to)
  }

  /** An instruction is read back from its text when no digit follows. */
  lemma {:induction false} InstructionRoundTrip(ins: Instruction, rest: string)
    requires ins.from <= U64_MAX && ins.to <= U64_MAX && ins.count <= U64_MAX
    requires rest == [] || !IsDigit(rest[0])
    ensures ReadInstruction(ShowInstruction(ins) + rest) == Some((ins, rest))
  {
    var s6 := rest;
    var s5 := Decimal(ins.to) + s6;
    var s4 := " to " + s5;
    var s3 := Decimal(ins.from) + s4;
    var s2 := " from " + s3;
    var s1 := Decimal(ins.count) + s2;
    assert ShowInstruction(ins) + rest == "move " + s1;
    TagRoundTrip("move ", s1);
    NumberRoundTrip(ins.count, U64_MAX, s2);
    TagRoundTrip(" from ", s3);
    NumberRoundTrip(ins.from, U64_MAX, s4);
    TagRoundTrip(" to ", s5);
    NumberRoundTrip(ins.to, U64_MAX, s6);
    InstructionSteps("move " + s1, s1, s2, s3, s4, s5, s6, ins);
  }

  lemma {:induction false} InstructionSteps(s: string, s1: string, s2: string, s3: string, s4: string, s5: string, s6: string, ins: Instruction)
    requires Tag(s, "move ") == Some(s1) && Number(s1, U64_MAX) == Some((ins.count, s2))
    requires Tag(s2, " from ") == Some(s3) && Number(s3, U64_MAX) == Some((ins.from, s4))
    requires Tag(s4, " to ") == Some(s5) && Number(s5, U64_MAX) == Some((ins.to, s6))
    ensures ReadInstruction(s) == Some((ins, s6))
  {
  }
}
