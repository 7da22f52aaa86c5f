/** Day 15: the HASH of a step string, and the lens boxes ("HASHMAP")
    that insert and remove labelled lenses in place. */
module Day15 {
  import opened Common

  /** The HASH of `s`: for each character in turn, add its code, multiply
      by 17 and keep the remainder modulo 256. */
  function Hash(s: string): (h: nat)
    ensures h < 256
  {
    if s == [] then 0 else ((Hash(s[..|s| - 1]) + s[|s| - 1] as int) * 17) % 256
  }

  /** `calculate_hash`: the accumulator loop on a `u32`, which never
      overflows because the accumulator stays below 256 between steps. */
  method CalculateHash(s: string) returns (v: nat)
    ensures v == Hash(s) && v < 256
  {
    v := 0;
    for i := 0 to |s|
      invariant v == Hash(s[..i])
    {
      assert s[..i + 1][..i] == s[..i];
      assert (v + s[i] as int) * 17 <= U32_MAX;
      v := v + s[i] as int;
      v := v * 17;
      v := v % 256;
    }
    assert s[..|s|] == s;
  }

  /** `part_one`: the sum of the hashes of the comma-separated steps. */
  function SumHashes(steps: seq<string>): (r: nat)
    ensures r <= 255 * |steps|
  {
    if steps == [] then 0 else SumHashes(steps[..|steps| - 1]) + Hash(steps[|steps| - 1])
  }

  function PartOne(input: string): nat
  {
    SumHashes(Split(input, ","))
  }

  datatype Operation = Insert(focal: nat) | Remove

  datatype Instruction = Instruction(name: string, operation: Operation)

  predicate IsOperator(c: char)
  {
    c == '=' || c == '-'
  }

  /** The first '=' or '-' of `s`, where `split_once(['=', '-'])` cuts. */
  function OperatorIndex(s: string): (r: Option<nat>)
    ensures r.Some? ==> r.value < |s| && IsOperator(s[r.value])
    ensures r.Some? ==> forall j :: 0 <= j < r.value ==> !IsOperator(s[j])
    ensures r.None? ==> forall j :: 0 <= j < |s| ==> !IsOperator(s[j])
  {
    if s == [] then None
    else if IsOperator(s[0]) then Some(0)
    else match OperatorIndex(s[1..])
      case None => None
      case Some(i) => Some(i + 1)
  }

  /** The `expect`s of `parse_instruction`: an operator is present, and
      the text after it is empty or a `u8`. */
  predicate Parses(s: string)
  {
    var i := OperatorIndex(s);
    i.Some? && (var rest := s[i.value + 1..]; rest == [] || ParseNat(rest, U8_MAX).Some?)
  }

  /** `parse_instruction`: the label is the text before the first
      operator; nothing after it means Remove, whichever operator it was,
      and a number means Insert. */
  function ParseInstruction(s: string): (ins: Instruction)
    requires Parses(s)
    ensures var i := OperatorIndex(s).value;
      && ins.name == s[..i]
      && (ins.operation.Remove? <==> i + 1 == |s|)
      && (ins.operation.Insert? ==> Some(ins.operation.focal) == ParseNat(s[i + 1..], U8_MAX))
  {
    var i := OperatorIndex(s).value;
    var rest := s[i + 1..];
    Instruction(s[..i], if rest == [] then Remove else Insert(ParseNat(rest, U8_MAX).value))
  }

  /** The step text an instruction is written as. */
  function Render(ins: Instruction): string
  {
    match ins.operation
    case Remove => ins.name + "-"
    case Insert(n) => ins.name + "=" + Decimal(n)
  }

  predicate ValidInstruction(ins: Instruction)
  {
    (forall j :: 0 <= j < |ins.name| ==> !IsOperator(ins.name[j]))
    && (ins.operation.Insert? ==> ins.operation.focal <= U8_MAX)
  }

  lemma {:induction false} OperatorAfterLabel(name: string, tail: string)
    requires |tail| > 0 && IsOperator(tail[0])
    requires forall j :: 0 <= j < |name| ==> !IsOperator(name[j])
    ensures OperatorIndex(name + tail) == Some(|name|)
  {
    if name != [] {
      assert (name + tail)[1..] == name[1..] + tail;
      OperatorAfterLabel(name[1..], tail);
    }
  }

  /** Parsing the rendered step gives the instruction back. */
  lemma {:induction false} ParseRender(ins: Instruction)
    requires ValidInstruction(ins)
    ensures Parses(Render(ins)) && ParseInstruction(Render(ins)) == ins
  {
    var s := Render(ins);
    match ins.operation
    case Remove =>
      OperatorAfterLabel(ins.name, "-");
      assert s[..|ins.name|] == ins.name;
    case Insert(n) =>
      var tail := "=" + Decimal(n);
      assert s == ins.name + tail;
      OperatorAfterLabel(ins.name, tail);
      assert s[..|ins.name|] == ins.name;
      assert s[|ins.name| + 1..] == Decimal(n);
      ParseNatDecimal(n, U8_MAX);
  }

  /** A lens: its label and focal length. */
  type Lens = (string, nat)

  /** The position of the lens labelled `key`, the first one if several. */
  function KeyIndex(bucket: seq<Lens>, key: string): (r: Option<nat>)
    ensures r.Some? ==> r.value < |bucket| && bucket[r.value].0 == key
    ensures r.Some? ==> forall j :: 0 <= j < r.value ==> bucket[j].0 != key
    ensures r.None? ==> forall j :: 0 <= j < |bucket| ==> bucket[j].0 != key
  {
    if bucket == [] then None
    else if bucket[0].0 == key then Some(0)
    else match KeyIndex(bucket[1..], key)
      case None => None
      case Some(i) => Some(i + 1)
  }

  /** The bucket after `insert`: an existing lens with the label gets the
      new focal length where it stands; otherwise the lens goes at the end. */
  function Inserted(bucket: seq<Lens>, key: string, value: nat): (r: seq<Lens>)
  {
    match KeyIndex(bucket, key)
    case Some(i) => bucket[i := (key, value)]
    case None => bucket + [(key, value)]
  }

  /** The bucket after `remove`: every lens with the label dropped, the
      others kept in order. */
  function Removed(bucket: seq<Lens>, key: string): (r: seq<Lens>)
    ensures |r| <= |bucket|
  {
    if bucket == [] then []
    else Removed(bucket[..|bucket| - 1], key)
         + (if bucket[|bucket| - 1].0 == key then [] else [bucket[|bucket| - 1]])
  }

  function Lookup(bucket: seq<Lens>, key: string): Option<nat>
  {
    match KeyIndex(bucket, key)
    case Some(i) => Some(bucket[i].1)
    case None => None
  }

  predicate DistinctKeys(bucket: seq<Lens>)
  {
    forall i, j :: 0 <= i < j < |bucket| ==> bucket[i].0 != bucket[j].0
  }

  lemma {:induction false} KeyIndexAt(bucket: seq<Lens>, key: string, i: nat)
    requires i < |bucket| && bucket[i].0 == key
    requires forall j :: 0 <= j < i ==> bucket[j].0 != key
    ensures KeyIndex(bucket, key) == Some(i)
  {
  }

  /** After an insert the label maps to the new focal length, and every
      other label maps to what it did. */
  lemma {:induction false} InsertedLookup(bucket: seq<Lens>, key: string, value: nat, other: string)
    ensures Lookup(Inserted(bucket, key, value), key) == Some(value)
    ensures other != key ==> Lookup(Inserted(bucket, key, value), other) == Lookup(bucket, other)
  {
    var r := Inserted(bucket, key, value);
    match KeyIndex(bucket, key)
    case Some(i) =>
      KeyIndexAt(r, key, i);
      if other != key {
        match KeyIndex(bucket, other)
        case None =>
          assert forall j :: 0 <= j < |r| ==> r[j].0 != other;
        case Some(k) =>
          KeyIndexAt(r, other, k);
      }
    case None =>
      KeyIndexAt(r, key, |bucket|);
      if other != key {
        match KeyIndex(bucket, other)
        case None =>
          assert forall j :: 0 <= j < |r| ==> r[j].0 != other;
        case Some(k) =>
          KeyIndexAt(r, other, k);
      }
  }

  /** An insert never moves a lens: a present label keeps its slot and
      only its focal length changes; a new label goes last. */
  lemma {:induction false} InsertedInPlace(bucket: seq<Lens>, key: string, value: nat)
    ensures var r := Inserted(bucket, key, value);
      if exists j :: 0 <= j < |bucket| && bucket[j].0 == key then
        |r| == |bucket| && forall j :: 0 <= j < |r| ==> r[j].0 == bucket[j].0
      else
        r == bucket + [(key, value)]
  {
  }

  lemma {:induction false} InsertedDistinct(bucket: seq<Lens>, key: string, value: nat)
    requires DistinctKeys(bucket)
    ensures DistinctKeys(Inserted(bucket, key, value))
  {
  }

  /** No lens with the label survives a remove, and the others keep their
      relative order. */
  lemma {:induction false} RemovedDrops(bucket: seq<Lens>, key: string)
    ensures forall j :: 0 <= j < |Removed(bucket, key)| ==> Removed(bucket, key)[j].0 != key
    ensures forall x :: x in Removed(bucket, key) <==> x in bucket && x.0 != key
  {
    if bucket != [] {
      RemovedDrops(bucket[..|bucket| - 1], key);
      assert bucket == bucket[..|bucket| - 1] + [bucket[|bucket| - 1]];
    }
  }

  /** Removing an absent label changes nothing. */
  lemma {:induction false} RemovedAbsent(bucket: seq<Lens>, key: string)
    requires forall j :: 0 <= j < |bucket| ==> bucket[j].0 != key
    ensures Removed(bucket, key) == bucket
  {
    if bucket != [] {
      RemovedAbsent(bucket[..|bucket| - 1], key);
      assert bucket == bucket[..|bucket| - 1] + [bucket[|bucket| - 1]];
    }
  }

  /** With distinct labels, a remove cuts exactly the one lens out. */
  lemma {:induction false} RemovedCuts(bucket: seq<Lens>, key: string, i: nat)
    requires DistinctKeys(bucket) && i < |bucket| && bucket[i].0 == key
    ensures Removed(bucket, key) == bucket[..i] + bucket[i + 1..]
  {
    RemovedSplit(bucket, key, i + 1);
    var front, back := bucket[..i], bucket[i + 1..];
    assert bucket[..i + 1][..i] == front;
    assert Removed(bucket[..i + 1], key) == Removed(front, key);
    assert forall j :: 0 <= j < |front| ==> front[j].0 != key by {
      forall j | 0 <= j < |front| ensures front[j].0 != key {
        assert front[j] == bucket[j];
      }
    }
    assert forall j :: 0 <= j < |back| ==> back[j].0 != key by {
      forall j | 0 <= j < |back| ensures back[j].0 != key {
        assert back[j] == bucket[i + 1 + j];
      }
    }
    RemovedAbsent(front, key);
    RemovedAbsent(back, key);
  }

  lemma {:induction false} RemovedSplit(bucket: seq<Lens>, key: string, k: nat)
    requires k <= |bucket|
    ensures Removed(bucket, key) == Removed(bucket[..k], key) + Removed(bucket[k..], key)
    decreases |bucket|
  {
    if k < |bucket| {
      var init := bucket[..|bucket| - 1];
      RemovedSplit(init, key, k);
      assert init[..k] == bucket[..k];
      assert bucket[k..] == init[k..] + [bucket[|bucket| - 1]];
      assert bucket[k..][..|bucket[k..]| - 1] == init[k..];
    } else {
      assert bucket[..k] == bucket;
    }
  }

  lemma {:induction false} RemovedDistinct(bucket: seq<Lens>, key: string)
    requires DistinctKeys(bucket)
    ensures DistinctKeys(Removed(bucket, key))
  {
    if bucket != [] {
      var init := bucket[..|bucket| - 1];
      RemovedDistinct(init, key);
      RemovedDrops(init, key);
      var last := bucket[|bucket| - 1];
      forall x | x in Removed(init, key)
        ensures x.0 != last.0
      {
        var j :| 0 <= j < |init| && init[j] == x;
      }
    }
  }

  /** One lens box, `HashMap`, whose bucket the operations rewrite in
      place. */
  class LensBox {
    var bucket: seq<Lens>

    constructor ()
      ensures bucket == []
    {
      bucket := [];
    }

    /** `HashMap::insert`: scan for the label and overwrite its focal
        length, or push a new lens at the end. */
    method Put(key: string, value: nat)
      modifies this
      ensures bucket == Inserted(old(bucket), key, value)
    {
      var i := 0;
      while i < |bucket|
        invariant 0 <= i <= |bucket| && bucket == old(bucket)
        invariant forall j :: 0 <= j < i ==> bucket[j].0 != key
      {
        if bucket[i].0 == key {
          bucket := bucket[i := (key, value)];
          return;
        }
        i := i + 1;
      }
      bucket := bucket + [(key, value)];
    }

    /** `HashMap::remove`: keep every lens whose label differs. */
    method Delete(key: string)
      modifies this
      ensures bucket == Removed(old(bucket), key)
    {
      var kept: seq<Lens> := [];
      for i := 0 to |bucket|
        invariant kept == Removed(bucket[..i], key)
      {
        assert bucket[..i + 1][..i] == bucket[..i];
        if bucket[i].0 != key {
          kept := kept + [bucket[i]];
        }
      }
      assert bucket[..|bucket|] == bucket;
      bucket := kept;
    }
  }

  const Boxes: nat := 256

  /** The effect of one instruction on the 256 buckets: only the box
      numbered by the label's hash changes. */
  function Apply(state: seq<seq<Lens>>, ins: Instruction): (r: seq<seq<Lens>>)
    requires |state| == Boxes
    ensures |r| == Boxes
  {
    var h := Hash(ins.name);
    match ins.operation
    case Insert(n) => state[h := Inserted(state[h], ins.name, n)]
    case Remove => state[h := Removed(state[h], ins.name)]
  }

  function ApplyAll(state: seq<seq<Lens>>, program: seq<Instruction>): (r: seq<seq<Lens>>)
    requires |state| == Boxes
    ensures |r| == Boxes
  {
    if program == [] then state else Apply(ApplyAll(state, program[..|program| - 1]), program[|program| - 1])
  }

  /** Every lens sits in the box its label hashes to, and no box holds a
      label twice. */
  predicate WellSorted(state: seq<seq<Lens>>)
  {
    forall b :: 0 <= b < |state| ==>
      DistinctKeys(state[b]) && forall j :: 0 <= j < |state[b]| ==> Hash(state[b][j].0) == b
  }

  lemma {:induction false} ApplyKeepsSorted(state: seq<seq<Lens>>, ins: Instruction)
    requires |state| == Boxes && WellSorted(state)
    ensures WellSorted(Apply(state, ins))
  {
    var h := Hash(ins.name);
    match ins.operation
    case Insert(n) =>
      InsertedDistinct(state[h], ins.name, n);
    case Remove =>
      RemovedDistinct(state[h], ins.name);
      RemovedDrops(state[h], ins.name);
      var r := Removed(state[h], ins.name);
      forall j | 0 <= j < |r|
        ensures Hash(r[j].0) == h
      {
        assert r[j] in state[h];
      }
  }

  lemma {:induction false} ApplyAllKeepsSorted(state: seq<seq<Lens>>, program: seq<Instruction>)
    requires |state| == Boxes && WellSorted(state)
    ensures WellSorted(ApplyAll(state, program))
  {
    if program != [] {
      ApplyAllKeepsSorted(state, program[..|program| - 1]);
      ApplyKeepsSorted(ApplyAll(state, program[..|program| - 1]), program[|program| - 1]);
    }
  }

  /** The focusing power of one box: box number times slot number times
      focal length, both counted from one. */
  function BoxPower(box: nat, bucket: seq<Lens>): nat
  {
    if bucket == [] then 0
    else BoxPower(box, bucket[..|bucket| - 1]) + (box + 1) * |bucket| * bucket[|bucket| - 1].1
  }

  function FocusingPower(state: seq<seq<Lens>>): nat
  {
    if state == [] then 0 else FocusingPower(state[..|state| - 1]) + BoxPower(|state| - 1, state[|state| - 1])
  }

  function Instructions(steps: seq<string>): (program: seq<Instruction>)
    requires forall k :: 0 <= k < |steps| ==> Parses(steps[k])
    ensures |program| == |steps|
  {
    seq(|steps|, k requires 0 <= k < |steps| => ParseInstruction(steps[k]))
  }

  function EmptyBoxes(): (state: seq<seq<Lens>>)
    ensures |state| == Boxes && WellSorted(state)
  {
    seq(Boxes, _ => [])
  }

  /** The 256 boxes as values. */
  ghost function Contents(boxes: array<LensBox>): seq<seq<Lens>>
    reads boxes, set b | 0 <= b < boxes.Length :: boxes[b]
  {
    seq(boxes.Length, b requires 0 <= b < boxes.Length
                        reads boxes, set a | 0 <= a < boxes.Length :: boxes[a] => boxes[b].bucket)
  }

  /** Distinct boxes: an update of one leaves the others alone. */
  ghost predicate Separate(boxes: array<LensBox>)
    reads boxes
  {
    forall a, b :: 0 <= a < b < boxes.Length ==> boxes[a] != boxes[b]
  }

  /** `part_two`: run every step on the 256 boxes, then add up the
      focusing power. */
  method PartTwo(input: string) returns (power: nat)
    requires forall k :: 0 <= k < |Split(input, ",")| ==> Parses(Split(input, ",")[k])
    ensures power == FocusingPower(ApplyAll(EmptyBoxes(), Instructions(Split(input, ","))))
  {
    var boxes := NewBoxes();
    RunSteps(boxes, Split(input, ","));
    power := TotalPower(boxes);
  }

  /** The loop of `part_two`: parse each step and perform it. */
  method RunSteps(boxes: array<LensBox>, steps: seq<string>)
    requires Separate(boxes) && boxes.Length == Boxes
    requires forall k :: 0 <= k < |steps| ==> Parses(steps[k])
    modifies set b | 0 <= b < boxes.Length :: boxes[b]
    ensures Contents(boxes) == ApplyAll(old(Contents(boxes)), Instructions(steps))
  {
    ghost var program := Instructions(steps);
    ghost var start := Contents(boxes);
    for k := 0 to |steps|
      invariant Contents(boxes) == ApplyAll(start, program[..k])
    {
      var ins := ParseInstruction(steps[k]);
      assert ins == program[k];
      Perform(boxes, ins);
      assert program[..k + 1][..k] == program[..k];
    }
    assert program[..|steps|] == program;
  }

  /** One step of `part_two`: hash the label and insert into or remove
      from that box. */
  method Perform(boxes: array<LensBox>, ins: Instruction)
    requires Separate(boxes) && boxes.Length == Boxes
    modifies boxes[Hash(ins.name)]
    ensures Contents(boxes) == Apply(old(Contents(boxes)), ins)
  {
    ghost var before := Contents(boxes);
    var h := CalculateHash(ins.name);
    match ins.operation {
      case Insert(n) => boxes[h].Put(ins.name, n);
      case Remove => boxes[h].Delete(ins.name);
    }
    forall b | 0 <= b < Boxes
      ensures Contents(boxes)[b] == Apply(before, ins)[b]
    {
      if b != h {
        assert boxes[b] != boxes[h];
      }
    }
  }

  /** The final sum of `part_two`, box by box and slot by slot. */
  method TotalPower(boxes: array<LensBox>) returns (power: nat)
    ensures power == FocusingPower(Contents(boxes))
  {
    ghost var state := Contents(boxes);
    power := 0;
    for b := 0 to boxes.Length
      invariant power == FocusingPower(state[..b])
    {
      var bucket := boxes[b].bucket;
      assert bucket == state[b];
      var boxPower := 0;
      for j := 0 to |bucket|
        invariant boxPower == BoxPower(b, bucket[..j])
      {
        assert bucket[..j + 1][..j] == bucket[..j];
        boxPower := boxPower + (b + 1) * (j + 1) * bucket[j].1;
      }
      assert bucket[..|bucket|] == bucket;
      assert state[..b + 1][..b] == state[..b];
      power := power + boxPower;
    }
    assert state[..boxes.Length] == state;
  }

  method NewBoxes() returns (boxes: array<LensBox>)
    ensures fresh(boxes) && boxes.Length == Boxes && Separate(boxes)
    ensures forall b :: 0 <= b < Boxes ==> fresh(boxes[b])
    ensures Contents(boxes) == EmptyBoxes()
  {
    var first := new LensBox();
    boxes := new LensBox[Boxes](_ => first);
    for b := 1 to Boxes
      invariant forall a :: 0 <= a < b ==> fresh(boxes[a]) && boxes[a].bucket == []
      invariant forall a :: b <= a < Boxes ==> boxes[a] == first
      invariant forall a, c :: 0 <= a < c < b ==> boxes[a] != boxes[c]
    {
      boxes[b] := new LensBox();
    }
  }
}
