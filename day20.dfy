/** The pulse-network simulator of day 20: flip-flop, conjunction and
    broadcast modules joined by named wires. This module holds the module
    kinds and their reaction to a pulse, the parsing of the netlist and the
    construction of the two tables `Circuit::from_input` builds. */
module Day20 {
  import opened Common

  datatype Pulse = Low | High

  /** A module's kind together with its mutable state. */
  datatype ModuleType = FlipFlop(on: bool) | Conjunction(memory: seq<Pulse>) | Broadcast

  /** A module's wiring: where it sends, and who sends to it (in the order
      the wiring pass met them). */
  datatype ModuleIO = ModuleIO(output: seq<string>, input: seq<string>)

  const Broadcaster: string := "broadcaster"
  const Button: string := "button"
  /** The conjunction whose slots the second part watches. */
  const Watched: string := "hf"
  /** The number of watched slots: the trigger counters form a fixed array of four. */
  const WatchedSlots: nat := 4

  predicate AllHigh(memory: seq<Pulse>)
  {
    forall i :: 0 <= i < |memory| ==> memory[i] == High
  }

  /** Same kind and, for a conjunction, the same number of slots. */
  predicate SameShape(a: ModuleType, b: ModuleType)
  {
    match a
    case FlipFlop(_) => b.FlipFlop?
    case Conjunction(mem) => b.Conjunction? && |b.memory| == |mem|
    case Broadcast => b.Broadcast?
  }

  // ---------------------------------------------------------------------
  // The reaction of one module to one pulse
  // ---------------------------------------------------------------------

  /** `ModuleType::process`: the new module state and the emitted pulse, if any.
      A conjunction indexes its memory with `inputIdx`, which must be a slot. */
  function Process(m: ModuleType, pulse: Pulse, inputIdx: nat): (r: (ModuleType, Option<Pulse>))
    requires m.Conjunction? ==> inputIdx < |m.memory|
    ensures SameShape(m, r.0)
    // a flip-flop ignores a high pulse: no output, no change
    ensures m.FlipFlop? && pulse == High ==> r.0 == m && r.1 == None
    // a flip-flop toggles on a low pulse and reports its new state
    ensures m.FlipFlop? && pulse == Low ==>
              r.0.on == !m.on && r.1 == Some(if r.0.on then High else Low)
    // a conjunction records the pulse in the sender's slot only, and always emits
    ensures m.Conjunction? ==> r.0.memory[inputIdx] == pulse
    ensures m.Conjunction? ==>
              forall j :: 0 <= j < |m.memory| && j != inputIdx ==> r.0.memory[j] == m.memory[j]
    ensures m.Conjunction? ==> r.1.Some? && (r.1 == Some(Low) <==> AllHigh(r.0.memory))
    // a broadcaster relays the pulse unchanged
    ensures m.Broadcast? ==> r.0 == m && r.1 == Some(pulse)
  {
    match m
    case FlipFlop(on) =>
      if pulse == Low then (FlipFlop(!on), Some(if !on then High else Low)) else (m, None)
    case Conjunction(memory) =>
      var memory' := memory[inputIdx := pulse];
      (Conjunction(memory'), Some(if AllHigh(memory') then Low else High))
    case Broadcast => (m, Some(pulse))
  }

  /** The state of a flip-flop after it has received `pulses`, one by one. */
  function FeedFlipFlop(on: bool, pulses: seq<Pulse>): bool
  {
    if pulses == [] then on
    else Process(FlipFlop(FeedFlipFlop(on, pulses[..|pulses| - 1])), pulses[|pulses| - 1], 0).0.on
  }

  function CountLow(pulses: seq<Pulse>): nat
  {
    if pulses == [] then 0
    else CountLow(pulses[..|pulses| - 1]) + (if pulses[|pulses| - 1] == Low then 1 else 0)
  }

  /** A flip-flop toggles exactly once per low pulse received: its final
      state is the initial one flipped by the parity of the low pulses. */
  lemma {:induction false} FlipFlopParity(on: bool, pulses: seq<Pulse>)
    ensures FeedFlipFlop(on, pulses) == (if CountLow(pulses) % 2 == 0 then on else !on)
  {
    if pulses != [] {
      FlipFlopParity(on, pulses[..|pulses| - 1]);
    }
  }

  // ---------------------------------------------------------------------
  // Parsing a netlist line
  // ---------------------------------------------------------------------

  /** One line `<prefix><name> -> <dest>, <dest>, ...` of the input. */
  datatype Declaration = Declaration(name: string, kind: ModuleType, outputs: seq<string>)

  function KindPrefix(kind: ModuleType): string
  {
    match kind
    case FlipFlop(_) => "%"
    case Conjunction(_) => "&"
    case Broadcast => ""
  }

  /** The text of a declaration, as the parser reads it. */
  function Render(d: Declaration): string
    requires |d.outputs| >= 1
  {
    KindPrefix(d.kind) + d.name + " -> " + Join(d.outputs, ", ")
  }

  /** The header of `Circuit::from_input`'s first loop: split at the first
      " -> ", classify by the first character ('%' flip-flop starting off,
      '&' conjunction with no slots yet, anything else a broadcast module
      named by the whole text), and split the targets at ", ". A line without
      the separator, or with nothing before it, panics in the source. */
  function ParseLine(line: string): (r: Option<Declaration>)
    ensures r.None? <==> SplitOnce(line, " -> ").None? || SplitOnce(line, " -> ").value.0 == ""
    ensures r.Some? ==> r.value.kind in {FlipFlop(false), Conjunction([]), Broadcast}
  {
    match SplitOnce(line, " -> ")
    case None => None
    case Some((head, targets)) =>
      if head == "" then None
      else
        var outputs := Split(targets, ", ");
        if head[0] == '%' then Some(Declaration(head[1..], FlipFlop(false), outputs))
        else if head[0] == '&' then Some(Declaration(head[1..], Conjunction([]), outputs))
        else Some(Declaration(head, Broadcast, outputs))
  }

  /** The parser loses nothing: rendering a parsed line gives the line back,
      and a broadcast module's name cannot be mistaken for a prefixed one. */
  lemma {:induction false} ParseLineRoundTrip(line: string)
    requires ParseLine(line).Some?
    ensures var d := ParseLine(line).value;
      && |d.outputs| >= 1 && Render(d) == line
      && (d.kind.Broadcast? ==> |d.name| > 0 && d.name[0] != '%' && d.name[0] != '&')
  {
    var (head, targets) := SplitOnce(line, " -> ").value;
    var d := ParseLine(line).value;
    JoinSplit(targets, ", ");
    assert d.outputs == Split(targets, ", ");
    assert KindPrefix(d.kind) + d.name == head by {
      if head[0] == '%' {
        assert head == "%" + head[1..];
      } else if head[0] == '&' {
        assert head == "&" + head[1..];
      }
    }
    assert Render(d) == head + " -> " + targets;
  }

  predicate Parsable(lines: seq<string>)
  {
    forall i :: 0 <= i < |lines| ==> ParseLine(lines[i]).Some?
  }

  /** What the first loop of `Circuit::from_input` leaves in its two maps,
      as one map from name to (initial kind, outputs): a later line
      declaring the same name replaces the earlier one. */
  function Declarations(lines: seq<string>): (d: map<string, (ModuleType, seq<string>)>)
    requires Parsable(lines)
    ensures forall i :: 0 <= i < |lines| ==> ParseLine(lines[i]).value.name in d
    ensures forall n :: n in d ==> d[n].0 in {FlipFlop(false), Conjunction([]), Broadcast}
  {
    if lines == [] then map[]
    else
      var decl := ParseLine(lines[|lines| - 1]).value;
      var d := Declarations(lines[..|lines| - 1]);
      assert forall i :: 0 <= i < |lines| - 1 ==> lines[..|lines| - 1][i] == lines[i];
      d[decl.name := (decl.kind, decl.outputs)]
  }

  /** `k` copies of `x`. */
  function Repeat<T>(x: T, k: nat): (r: seq<T>)
    ensures |r| == k
  {
    if k == 0 then [] else Repeat(x, k - 1) + [x]
  }

  lemma {:induction false} RepeatAppend<T>(x: T, a: nat, b: nat)
    ensures Repeat(x, a) + Repeat(x, b) == Repeat(x, a + b)
    decreases b
  {
    if b > 0 {
      RepeatAppend(x, a, b - 1);
    }
  }

  function Occurrences(s: seq<string>, x: string): nat
  {
    if s == [] then 0 else Occurrences(s[..|s| - 1], x) + (if s[|s| - 1] == x then 1 else 0)
  }

  // ---------------------------------------------------------------------
  // Building the circuit
  // ---------------------------------------------------------------------

  /** Modules keep their kinds and slot counts. */
  predicate Shapes(before: map<string, ModuleType>, after: map<string, ModuleType>)
  {
    before.Keys == after.Keys && forall n :: n in before ==> SameShape(before[n], after[n])
  }

  lemma {:induction false} ShapesTransitive(a: map<string, ModuleType>, b: map<string, ModuleType>, c: map<string, ModuleType>)
    requires Shapes(a, b) && Shapes(b, c)
    ensures Shapes(a, c)
  {
    forall n | n in a
      ensures SameShape(a[n], c[n])
    {
      assert SameShape(a[n], b[n]) && SameShape(b[n], c[n]);
    }
  }

  /** The wiring invariant set up by `from_input`: the two tables have the
      same names, the broadcaster exists, and each conjunction has one slot
      per recorded sender (the broadcaster's extra "button" sender has none). */
  predicate Wired(modules: map<string, ModuleType>, io: map<string, ModuleIO>)
  {
    && modules.Keys == io.Keys
    && Broadcaster in io
    && (forall n :: n in modules && modules[n].Conjunction? ==>
          |modules[n].memory| + (if n == Broadcaster then 1 else 0) == |io[n].input|)
  }

  lemma {:induction false} ShapesKeepWired(modules: map<string, ModuleType>, modules': map<string, ModuleType>, io: map<string, ModuleIO>)
    requires Wired(modules, io) && Shapes(modules, modules')
    ensures Wired(modules', io)
  {
    forall n | n in modules' && modules'[n].Conjunction?
      ensures |modules'[n].memory| + (if n == Broadcaster then 1 else 0) == |io[n].input|
    {
      assert SameShape(modules[n], modules'[n]);
    }
  }

  lemma {:induction false} DeclarationsSnoc(lines: seq<string>, i: nat)
    requires Parsable(lines) && i < |lines|
    ensures Parsable(lines[..i]) && Parsable(lines[..i + 1])
    ensures var decl := ParseLine(lines[i]).value;
      Declarations(lines[..i + 1]) == Declarations(lines[..i])[decl.name := (decl.kind, decl.outputs)]
  {
    assert lines[..i + 1][..i] == lines[..i];
  }

  /** The first loop of `Circuit::from_input`: every line declares a module
      with its initial state and its outputs, and no senders yet. */
  method Declare(lines: seq<string>) returns (mods: map<string, ModuleType>, wires: map<string, ModuleIO>)
    requires Parsable(lines)
    ensures mods.Keys == wires.Keys == Declarations(lines).Keys
    ensures forall n :: n in wires ==>
              mods[n] == Declarations(lines)[n].0 && wires[n] == ModuleIO(Declarations(lines)[n].1, [])
    ensures forall n :: n in wires ==> wires[n].input == [] && (mods[n].Conjunction? ==> mods[n].memory == [])
  {
    mods, wires := map[], map[];
    var i := 0;
    while i < |lines|
      invariant 0 <= i <= |lines|
      invariant mods.Keys == wires.Keys == Declarations(lines[..i]).Keys
      invariant forall n :: n in wires ==>
                  mods[n] == Declarations(lines[..i])[n].0 && wires[n] == ModuleIO(Declarations(lines[..i])[n].1, [])
    {
      var decl := ParseLine(lines[i]).value;
      DeclarationsSnoc(lines, i);
      wires := wires[decl.name := ModuleIO(decl.outputs, [])];
      mods := mods[decl.name := decl.kind];
      i := i + 1;
    }
    assert lines[..i] == lines;
  }

  /** The senders recorded for `n` by the wiring pass that visits the
      modules in `keys` order: each key once per time it lists `n`. */
  function Inbound(keys: seq<string>, outputs: map<string, seq<string>>, n: string): seq<string>
    requires forall k :: k in keys ==> k in outputs
  {
    if keys == [] then []
    else
      var k := keys[|keys| - 1];
      Inbound(keys[..|keys| - 1], outputs, n) + Repeat(k, Occurrences(outputs[k], n))
  }

  /** The state a module starts in when `slots` senders were recorded for it. */
  function Initial(kind: ModuleType, slots: nat): ModuleType
  {
    if kind.Conjunction? then Conjunction(Repeat(Low, slots)) else kind
  }

  predicate Distinct(keys: seq<string>)
  {
    forall i, j :: 0 <= i < j < |keys| ==> keys[i] != keys[j]
  }

  /** The wiring pass's step for one module `key`, target by target: a
      declared target records `key` as a sender, and a conjunction target
      gains a Low slot; an undeclared target is skipped. */
  function WireTargets(key: string, targets: seq<string>, mods0: map<string, ModuleType>, wires0: map<string, ModuleIO>)
    : (r: (map<string, ModuleType>, map<string, ModuleIO>))
    requires mods0.Keys == wires0.Keys
    ensures r.0.Keys == r.1.Keys == wires0.Keys
    ensures forall n :: n in r.1 ==> r.1[n].output == wires0[n].output
  {
    if targets == [] then (mods0, wires0)
    else
      var (mods, wires) := WireTargets(key, targets[..|targets| - 1], mods0, wires0);
      var t := targets[|targets| - 1];
      if t !in wires then (mods, wires)
      else
        var wires' := wires[t := wires[t].(input := wires[t].input + [key])];
        if mods[t].Conjunction? then (mods[t := Conjunction(mods[t].memory + [Low])], wires')
        else (mods, wires')
  }

  /** After the step for `key`, a declared name `n` has recorded `key` once
      per listing. */
  lemma {:induction false} WireTargetsInput(key: string, targets: seq<string>,
                                           mods0: map<string, ModuleType>, wires0: map<string, ModuleIO>, n: string)
    requires mods0.Keys == wires0.Keys && n in wires0
    ensures WireTargets(key, targets, mods0, wires0).1[n].input
         == wires0[n].input + Repeat(key, Occurrences(targets, n))
  {
    if targets != [] {
      var init := targets[..|targets| - 1];
      WireTargetsInput(key, init, mods0, wires0, n);
      var c := Occurrences(init, n);
      if targets[|targets| - 1] == n {
        assert Occurrences(targets, n) == c + 1;
        assert Repeat(key, c + 1) == Repeat(key, c) + [key];
      } else {
        assert Occurrences(targets, n) == c;
      }
    }
  }

  /** After the step for `key`, a declared conjunction `n` has one more Low
      slot per listing; any other kind is untouched. */
  lemma {:induction false} WireTargetsKind(key: string, targets: seq<string>,
                                          mods0: map<string, ModuleType>, wires0: map<string, ModuleIO>, n: string)
    requires mods0.Keys == wires0.Keys && n in wires0
    ensures WireTargets(key, targets, mods0, wires0).0[n]
         == (if mods0[n].Conjunction?
             then Conjunction(mods0[n].memory + Repeat(Low, Occurrences(targets, n)))
             else mods0[n])
  {
    if targets != [] {
      var init := targets[..|targets| - 1];
      WireTargetsKind(key, init, mods0, wires0, n);
      var c := Occurrences(init, n);
      if targets[|targets| - 1] == n {
        assert Occurrences(targets, n) == c + 1;
        assert Repeat(Low, c + 1) == Repeat(Low, c) + [Low];
      } else {
        assert Occurrences(targets, n) == c;
      }
    }
  }

  /** The inner loop of the wiring pass, for the module `key`. */
  method WireOne(key: string, targets: seq<string>, mods0: map<string, ModuleType>, wires0: map<string, ModuleIO>)
    returns (mods: map<string, ModuleType>, wires: map<string, ModuleIO>)
    requires mods0.Keys == wires0.Keys
    ensures (mods, wires) == WireTargets(key, targets, mods0, wires0)
  {
    mods, wires := mods0, wires0;
    var j := 0;
    while j < |targets|
      invariant 0 <= j <= |targets|
      invariant (mods, wires) == WireTargets(key, targets[..j], mods0, wires0)
    {
      var target := targets[j];
      assert targets[..j + 1][..j] == targets[..j];
      if target in wires {
        wires := wires[target := wires[target].(input := wires[target].input + [key])];
        var m := mods[target];
        if m.Conjunction? {
          mods := mods[target := Conjunction(m.memory + [Low])];
        }
      }
      j := j + 1;
    }
    assert targets[..j] == targets;
  }

  /** The whole wiring pass over `keys`, each module listing the targets
      `outs` gives it. */
  function WireAll(keys: seq<string>, outs: map<string, seq<string>>,
                   mods0: map<string, ModuleType>, wires0: map<string, ModuleIO>)
    : (r: (map<string, ModuleType>, map<string, ModuleIO>))
    requires mods0.Keys == wires0.Keys
    requires forall k :: k in keys ==> k in outs
    ensures r.0.Keys == r.1.Keys == wires0.Keys
    ensures forall n :: n in r.1 ==> r.1[n].output == wires0[n].output
  {
    if keys == [] then (mods0, wires0)
    else
      var (mods, wires) := WireAll(keys[..|keys| - 1], outs, mods0, wires0);
      WireTargets(keys[|keys| - 1], outs[keys[|keys| - 1]], mods, wires)
  }

  /** Starting from the declared modules with no senders, the wiring pass
      records exactly the `Inbound` senders of a name. */
  lemma {:induction false} WireAllInput(keys: seq<string>, outs: map<string, seq<string>>,
                                       kinds: map<string, ModuleType>, wires0: map<string, ModuleIO>, n: string)
    requires kinds.Keys == wires0.Keys && n in wires0
    requires forall k :: k in keys ==> k in outs
    requires wires0[n].input == []
    ensures WireAll(keys, outs, kinds, wires0).1[n].input == Inbound(keys, outs, n)
  {
    if keys != [] {
      var init := keys[..|keys| - 1];
      var key := keys[|keys| - 1];
      WireAllInput(init, outs, kinds, wires0, n);
      var prev := WireAll(init, outs, kinds, wires0);
      assert WireAll(keys, outs, kinds, wires0) == WireTargets(key, outs[key], prev.0, prev.1);
      WireTargetsInput(key, outs[key], prev.0, prev.1, n);
    }
  }

  /** Starting from the declared modules with no slots, the wiring pass
      gives a conjunction one Low slot per `Inbound` sender. */
  lemma {:induction false} WireAllKind(keys: seq<string>, outs: map<string, seq<string>>,
                                      kinds: map<string, ModuleType>, wires0: map<string, ModuleIO>, n: string)
    requires kinds.Keys == wires0.Keys && n in wires0
    requires forall k :: k in keys ==> k in outs
    requires kinds[n].Conjunction? ==> kinds[n].memory == []
    ensures WireAll(keys, outs, kinds, wires0).0[n] == Initial(kinds[n], |Inbound(keys, outs, n)|)
  {
    if keys != [] {
      var init := keys[..|keys| - 1];
      var key := keys[|keys| - 1];
      WireAllKind(init, outs, kinds, wires0, n);
      var prev := WireAll(init, outs, kinds, wires0);
      assert WireAll(keys, outs, kinds, wires0) == WireTargets(key, outs[key], prev.0, prev.1);
      WireTargetsKind(key, outs[key], prev.0, prev.1, n);
      var a, b := |Inbound(init, outs, n)|, Occurrences(outs[key], n);
      assert |Inbound(keys, outs, n)| == a + b;
      if kinds[n].Conjunction? {
        RepeatAppend(Low, a, b);
      }
    }
  }

  /** The outer loop of the wiring pass. */
  method Wire(keys: seq<string>, outs: map<string, seq<string>>,
              mods0: map<string, ModuleType>, wires0: map<string, ModuleIO>)
    returns (mods: map<string, ModuleType>, wires: map<string, ModuleIO>)
    requires mods0.Keys == wires0.Keys
    requires forall k :: k in keys ==> k in outs && k in wires0 && wires0[k].output == outs[k]
    ensures (mods, wires) == WireAll(keys, outs, mods0, wires0)
  {
    mods, wires := mods0, wires0;
    var k := 0;
    while k < |keys|
      invariant 0 <= k <= |keys|
      invariant (mods, wires) == WireAll(keys[..k], outs, mods0, wires0)
    {
      var key := keys[k];
      assert keys[..k + 1][..k] == keys[..k];
      mods, wires := WireOne(key, wires[key].output, mods, wires);
      k := k + 1;
    }
    assert keys[..k] == keys;
  }

  /** `keyOrder` lists every declared name exactly once: an iteration order
      of the module table. */
  predicate IsKeyOrder(lines: seq<string>, keyOrder: seq<string>)
    requires Parsable(lines)
  {
    && Distinct(keyOrder)
    && (forall k :: k in keyOrder ==> k in Declarations(lines))
    && (forall k :: k in Declarations(lines) ==> k in keyOrder)
  }

  /** The targets each declared module lists. */
  function Outputs(lines: seq<string>): map<string, seq<string>>
    requires Parsable(lines)
  {
    map n | n in Declarations(lines) :: Declarations(lines)[n].1
  }

  /** The module states `Circuit::from_input` starts with: every declared
      module in its initial state, a conjunction with one Low slot per
      sender the wiring pass records for it. */
  function InitialModules(lines: seq<string>, keyOrder: seq<string>): map<string, ModuleType>
    requires Parsable(lines) && IsKeyOrder(lines, keyOrder)
  {
    var decls := Declarations(lines);
    map n | n in decls :: Initial(decls[n].0, |Inbound(keyOrder, Outputs(lines), n)|)
  }

  /** The wiring `Circuit::from_input` sets up: each declared module's
      targets, and the senders the wiring pass records for it, followed by
      "button" for the broadcaster. */
  function InitialIO(lines: seq<string>, keyOrder: seq<string>): map<string, ModuleIO>
    requires Parsable(lines) && IsKeyOrder(lines, keyOrder)
  {
    var decls := Declarations(lines);
    map n | n in decls :: ModuleIO(decls[n].1,
      Inbound(keyOrder, Outputs(lines), n) + (if n == Broadcaster then [Button] else []))
  }

  method DeclareAndWire(lines: seq<string>, keyOrder: seq<string>)
    returns (mods: map<string, ModuleType>, wires: map<string, ModuleIO>)
    requires Parsable(lines)
    requires IsKeyOrder(lines, keyOrder)
    ensures mods == InitialModules(lines, keyOrder)
    ensures wires.Keys == Declarations(lines).Keys
    ensures forall n :: n in wires ==>
              wires[n] == ModuleIO(Declarations(lines)[n].1, Inbound(keyOrder, Outputs(lines), n))
  {
    mods, wires := Declare(lines);
    var outs := map n | n in wires :: wires[n].output;
    OutputsOfDeclared(lines, wires, outs);
    ghost var mods0, wires0 := mods, wires;
    mods, wires := Wire(keyOrder, outs, mods, wires);
    WireAllPointwise(keyOrder, outs, mods0, wires0);
    InitialModulesPointwise(lines, keyOrder, mods);
  }

  /** The wiring pass from modules with no senders and no slots, name by
      name. */
  lemma {:induction false} WireAllPointwise(keys: seq<string>, outs: map<string, seq<string>>,
                                           mods0: map<string, ModuleType>, wires0: map<string, ModuleIO>)
    requires mods0.Keys == wires0.Keys
    requires forall k :: k in keys ==> k in outs
    requires forall n :: n in wires0 ==> wires0[n].input == [] && (mods0[n].Conjunction? ==> mods0[n].memory == [])
    ensures var r := WireAll(keys, outs, mods0, wires0);
      forall n :: n in wires0 ==>
        r.1[n].input == Inbound(keys, outs, n) && r.0[n] == Initial(mods0[n], |Inbound(keys, outs, n)|)
  {
    forall n | n in wires0
      ensures WireAll(keys, outs, mods0, wires0).1[n].input == Inbound(keys, outs, n)
      ensures WireAll(keys, outs, mods0, wires0).0[n] == Initial(mods0[n], |Inbound(keys, outs, n)|)
    {
      WireAllInput(keys, outs, mods0, wires0, n);
      WireAllKind(keys, outs, mods0, wires0, n);
    }
  }

  lemma {:induction false} OutputsOfDeclared(lines: seq<string>, wires: map<string, ModuleIO>, outs: map<string, seq<string>>)
    requires Parsable(lines)
    requires wires.Keys == Declarations(lines).Keys
    requires forall n :: n in wires ==> wires[n].output == Declarations(lines)[n].1
    requires outs == map n | n in wires :: wires[n].output
    ensures outs == Outputs(lines)
  {
  }

  lemma {:induction false} InitialModulesPointwise(lines: seq<string>, keyOrder: seq<string>, mods: map<string, ModuleType>)
    requires Parsable(lines) && IsKeyOrder(lines, keyOrder)
    requires mods.Keys == Declarations(lines).Keys
    requires forall n :: n in mods ==>
               mods[n] == Initial(Declarations(lines)[n].0, |Inbound(keyOrder, Outputs(lines), n)|)
    ensures mods == InitialModules(lines, keyOrder)
  {
  }

  /** The two tables `Circuit::from_input` builds: the declarations, then
      the wiring pass in `keyOrder`, then the button as the broadcaster's
      last sender. */
  method Build(lines: seq<string>, keyOrder: seq<string>)
    returns (mods: map<string, ModuleType>, wires: map<string, ModuleIO>)
    requires Parsable(lines)
    requires Broadcaster in Declarations(lines)
    requires IsKeyOrder(lines, keyOrder)
    ensures Wired(mods, wires)
    ensures mods == InitialModules(lines, keyOrder) && wires == InitialIO(lines, keyOrder)
  {
    mods, wires := DeclareAndWire(lines, keyOrder);
    ghost var wired := wires;
    wires := wires[Broadcaster := wires[Broadcaster].(input := wires[Broadcaster].input + [Button])];
    InitialIOPointwise(lines, keyOrder, wired, wires);
    InitialWired(lines, keyOrder);
  }

  lemma {:induction false} InitialIOPointwise(lines: seq<string>, keyOrder: seq<string>,
                           wired: map<string, ModuleIO>, wires: map<string, ModuleIO>)
    requires Parsable(lines) && IsKeyOrder(lines, keyOrder) && Broadcaster in Declarations(lines)
    requires wired.Keys == Declarations(lines).Keys
    requires forall n :: n in wired ==>
               wired[n] == ModuleIO(Declarations(lines)[n].1, Inbound(keyOrder, Outputs(lines), n))
    requires wires == wired[Broadcaster := wired[Broadcaster].(input := wired[Broadcaster].input + [Button])]
    ensures wires == InitialIO(lines, keyOrder)
  {
    var target := InitialIO(lines, keyOrder);
    assert wires.Keys == target.Keys;
    forall n | n in wires
      ensures wires[n] == target[n]
    {
    }
  }

  /** The tables `Circuit::from_input` builds satisfy the wiring invariant. */
  lemma {:induction false} InitialWired(lines: seq<string>, keyOrder: seq<string>)
    requires Parsable(lines) && IsKeyOrder(lines, keyOrder) && Broadcaster in Declarations(lines)
    ensures Wired(InitialModules(lines, keyOrder), InitialIO(lines, keyOrder))
  {
  }
}
