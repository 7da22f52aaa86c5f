/** The day-20 circuit object, updated in place by each button press, and
    the two puzzle parts built on it. */
module Day20Circuit {
  import opened Common
  import opened Day20
  import opened Day20Press
  import opened NumInteger

  class Circuit {
    var modules: map<string, ModuleType>
    var io: map<string, ModuleIO>

    ghost predicate Valid()
      reads this
    {
      Wired(modules, io)
    }

    /** `Circuit::from_input`. The wiring pass visits the declared names in
        `keyOrder`, which stands for the hash map's iteration order; the
        broadcaster finally records "button" as its last sender. */
    constructor FromInput(lines: seq<string>, keyOrder: seq<string>)
      requires Parsable(lines)
      requires Broadcaster in Declarations(lines)
      requires IsKeyOrder(lines, keyOrder)
      ensures Valid()
      ensures modules == InitialModules(lines, keyOrder) && io == InitialIO(lines, keyOrder)
    {
      var mods, wires := Build(lines, keyOrder);
      modules := mods;
      io := wires;
    }

    /** The handling of the popped pulse `head` by its module, in place. */
    method Deliver(head: Sent, triggers: seq<nat>) returns (ok: bool, triggers': seq<nat>, emitted: seq<Sent>)
      requires head.target in modules
      modifies this`modules
      ensures var r := React(io, old(modules), triggers, head);
        && ok == r.Some?
        && (ok ==> modules == r.value.0 && triggers' == r.value.1 && emitted == r.value.2)
        && (!ok ==> modules == old(modules))
    {
      var m := modules[head.target];
      triggers' := triggers;
      emitted := [];
      if head.target == Watched && m.Conjunction? {
        var tally := Tally(triggers, m.memory);
        if tally.None? {
          return false, triggers, [];
        }
        triggers' := tally.value;
      }
      if head.target !in io {
        return false, triggers, [];
      }
      var wiring := io[head.target];
      var idx := PositionOrZero(wiring.input, head.sender);
      if m.Conjunction? && idx >= |m.memory| {
        return false, triggers, [];
      }
      var (m', out) := Process(m, head.pulse, idx);
      modules := modules[head.target := m'];
      if out.Some? {
        var k := 0;
        while k < |wiring.output|
          invariant 0 <= k <= |wiring.output|
          invariant emitted == Emit(wiring.output[..k], head.target, out.value)
        {
          emitted := emitted + [Sent(wiring.output[k], head.target, out.value)];
          k := k + 1;
        }
        assert wiring.output[..k] == wiring.output;
      }
      ok := true;
    }

    /** One turn of the loop in `Circuit::push_button`: pop the head pulse,
        count it, and unless its target has no module deliver it and queue
        what the module emits. `ok` is false on a panic, and then nothing
        has changed. */
    method HandleHead(queue: seq<Sent>, low: nat, high: nat, triggers: seq<nat>,
                      ghost log: seq<Sent>, ghost sent: seq<Sent>)
      returns (ok: bool, queue': seq<Sent>, low': nat, high': nat, triggers': seq<nat>,
               ghost log': seq<Sent>, ghost sent': seq<Sent>)
      requires Valid() && queue != []
      modifies this`modules
      ensures Valid()
      ensures var s := PressState(old(modules), queue, low, high, triggers, log, sent);
        && (ok ==> Step(io, s) == Some(PressState(modules, queue', low', high', triggers', log', sent')))
        && (!ok ==> Step(io, s).None? && modules == old(modules)
                    && queue' == queue && low' == low && high' == high && triggers' == triggers)
    {
      ghost var s := PressState(modules, queue, low, high, triggers, log, sent);
      var head := queue[0];
      queue', low', high', triggers', log', sent' := queue[1..], low, high, triggers, log + [head], sent;
      if head.pulse == Low { low' := low + 1; } else { high' := high + 1; }
      if head.target in modules {
        StepReacts(io, s);
        var emitted;
        ok, triggers', emitted := Deliver(head, triggers);
        if !ok {
          return false, queue, low, high, triggers, log, sent;
        }
        ShapesKeepWired(s.modules, modules, io);
        queue' := queue' + emitted;
        sent' := sent + emitted;
      } else {
        DropsUnknown(io, s);
        ok := true;
      }
    }

    /** `Circuit::push_button`: one press, updating the module states in
        place; it returns the pulse counts and the watched-slot counters.
        At most `fuel` pulses are handled. */
    method PushButton(fuel: nat) returns (status: Status, low: nat, high: nat, triggers: seq<nat>)
      requires Valid()
      modifies this`modules
      ensures Valid() && |triggers| == WatchedSlots
      ensures var r := RunPress(io, StartPress(old(modules)), fuel);
        && status == r.status && modules == r.state.modules
        && low == r.state.low && high == r.state.high && triggers == r.state.triggers
    {
      ghost var start := StartPress(modules);
      RunPressKeeps(io, start, fuel);
      var queue := [Sent(Broadcaster, Button, Low)];
      low, high := 0, 0;
      triggers := seq(WatchedSlots, _ => 0);
      ghost var log: seq<Sent> := [];
      ghost var sent := queue;
      var left := fuel;
      while queue != []
        invariant Valid()
        invariant RunPress(io, start, fuel)
               == RunPress(io, PressState(modules, queue, low, high, triggers, log, sent), left)
        decreases left
      {
        if left == 0 {
          status := OutOfFuel;
          return;
        }
        var ok;
        ok, queue, low, high, triggers, log, sent := HandleHead(queue, low, high, triggers, log, sent);
        if !ok {
          status := Panicked;
          return;
        }
        left := left - 1;
      }
      status := Finished;
    }

    /** One more press after the finished presses `done`, keeping the
        running totals' bookkeeping. */
    method PressNext(ghost start: map<string, ModuleType>, ghost done: seq<PressOutcome>, fuel: nat)
      returns (status: Status, low: nat, high: nat)
      requires Valid() && done == Presses(io, start, |done|, fuel) && AllFinished(done)
      requires modules == After(start, done)
      modifies this`modules
      ensures Valid()
      ensures var outcome := RunPress(io, StartPress(old(modules)), fuel);
        var done' := done + [outcome];
        && status == outcome.status && done' == Presses(io, start, |done| + 1, fuel)
        && (status == Finished ==>
              && AllFinished(done') && modules == After(start, done')
              && TotalLow(done') == TotalLow(done) + low && TotalHigh(done') == TotalHigh(done) + high)
    {
      PressesStep(io, start, done, fuel);
      var triggers;
      status, low, high, triggers := PushButton(fuel);
    }

    /** The loop of `part_one`: `n` presses in a row, summing the pulse
        counts; it stops early at a press that does not finish. */
    method PressRepeatedly(n: nat, fuel: nat) returns (status: Status, totalLow: nat, totalHigh: nat)
      requires Valid() && n > 0
      modifies this`modules
      ensures Valid()
      ensures PressedThrough(Presses(io, old(modules), n, fuel), n, status)
      ensures status == Finished ==> var ps := Presses(io, old(modules), n, fuel);
        totalLow == TotalLow(ps) && totalHigh == TotalHigh(ps)
    {
      ghost var start := modules;
      totalLow, totalHigh := 0, 0;
      ghost var done: seq<PressOutcome> := [];
      var i := 0;
      while i < n
        invariant 0 <= i <= n
        invariant Valid()
        invariant done == Presses(io, start, i, fuel) && |done| == i && AllFinished(done)
        invariant modules == After(start, done)
        invariant totalLow == TotalLow(done) && totalHigh == TotalHigh(done)
      {
        ghost var outcome := RunPress(io, StartPress(modules), fuel);
        var st, low, high := PressNext(start, done, fuel);
        done := done + [outcome];
        if st != Finished {
          PressesPrefix(io, start, i + 1, n, fuel);
          return st, totalLow, totalHigh;
        }
        totalHigh := totalHigh + high;
        totalLow := totalLow + low;
        i := i + 1;
      }
      status := Finished;
    }

    /** The loop of `part_two`: press until every watched slot has fired,
        recording for each the number of the first press after which its
        counter was positive, then fold the records with lcm. The source
        loops without bound; here at most `maxPresses` presses are made. */
    method PressUntilCycles(maxPresses: nat, fuel: nat) returns (status: Status, presses: nat, answer: Option<nat>)
      requires Valid()
      modifies this`modules
      ensures var ps := Presses(io, old(modules), presses, fuel);
        |ps| == presses && CyclesResult(ps, maxPresses, status, answer)
    {
      ghost var start := modules;
      var cycles := new Option<nat>[WatchedSlots](_ => None);
      ghost var done: seq<PressOutcome> := [];
      presses := 0;
      assert FirstFiring(done, 0).None?;
      assert cycles[..] == FirstFirings(done);
      while presses < maxPresses
        invariant presses <= maxPresses
        invariant Valid()
        invariant done == Presses(io, start, presses, fuel) && |done| == presses && AllFinished(done)
        invariant modules == After(start, done)
        invariant cycles[..] == FirstFirings(done)
        invariant !AllFound(done)
      {
        ghost var outcome := RunPress(io, StartPress(modules), fuel);
        PressesStep(io, start, done, fuel);
        presses := presses + 1;
        var st, _, _, triggers := PushButton(fuel);
        ghost var before := done;
        done := done + [outcome];
        if st != Finished {
          StopAtFailure(before, outcome, maxPresses);
          return st, presses, None;
        }
        var full, cycle := CheckCycles(cycles, triggers, presses, before, outcome);
        if full {
          StopWhenFound(before, outcome, maxPresses);
          return Finished, presses, Some(cycle);
        }
      }
      status, answer := Finished, None;
      StopAtLimit(done, maxPresses);
    }

    /** `n` presses, then the product of the total high and total low
        pulse counts. */
    method PulseProduct(n: nat, fuel: nat) returns (status: Status, answer: nat)
      requires Valid() && n > 0
      modifies this`modules
      ensures PressedThrough(Presses(io, old(modules), n, fuel), n, status)
      ensures status == Finished ==> answer == PulseScore(Presses(io, old(modules), n, fuel))
    {
      var totalLow, totalHigh;
      status, totalLow, totalHigh := PressRepeatedly(n, fuel);
      if status == Finished {
        ghost var ps := Presses(io, old(modules), n, fuel);
        assert totalHigh == TotalHigh(ps) && totalLow == TotalLow(ps);
        ProductOfNats(totalHigh, totalLow);
        answer := totalHigh * totalLow;
      } else {
        answer := 0;
      }
    }
  }

  /** The end of one press in `part_two`: record the slots that fired,
      and once every slot is recorded fold the cycles with lcm. */
  method CheckCycles(cycles: array<Option<nat>>, triggers: seq<nat>, press: nat,
                     ghost before: seq<PressOutcome>, ghost o: PressOutcome)
    returns (full: bool, cycle: nat)
    requires cycles[..] == FirstFirings(before) && triggers == o.state.triggers
    requires |triggers| == WatchedSlots && press == |before| + 1
    modifies cycles
    ensures cycles[..] == FirstFirings(before + [o])
    ensures full <==> AllFound(before + [o])
    ensures full ==> cycle == LcmOf(Cycles(before + [o]))
  {
    RecordFirings(cycles, triggers, press);
    RecordFirstFirings(before, o);
    FullTable(before + [o]);
    full := forall i :: 0 <= i < WatchedSlots ==> cycles[i].Some?;
    cycle := 0;
    if full {
      RecordedCycles(before + [o]);
      cycle := FoldLcm(cycles);
    }
  }

  /** One press's update of the recorded cycles in `part_two`. */
  method RecordFirings(cycles: array<Option<nat>>, triggers: seq<nat>, press: nat)
    requires |triggers| == cycles.Length
    modifies cycles
    ensures cycles[..] == Record(old(cycles[..]), triggers, press)
  {
    ghost var table := cycles[..];
    for i := 0 to |triggers|
      invariant cycles[..i] == Record(table, triggers, press)[..i]
      invariant cycles[i..] == table[i..]
    {
      if triggers[i] > 0 && cycles[i].None? {
        cycles[i] := Some(press);
      }
      assert cycles[i] == Record(table, triggers, press)[i];
      assert cycles[..i + 1] == cycles[..i] + [cycles[i]];
      assert Record(table, triggers, press)[..i + 1]
          == Record(table, triggers, press)[..i] + [Record(table, triggers, press)[i]];
    }
    assert cycles[..] == cycles[..|triggers|];
  }

  /** The final fold of `part_two`: the lcm of the recorded cycles,
      starting from 1. */
  method FoldLcm(cycles: array<Option<nat>>) returns (cycle: nat)
    requires forall i :: 0 <= i < cycles.Length ==> cycles[i].Some?
    ensures cycle == LcmOf(Recorded(cycles[..]))
  {
    ghost var values := Recorded(cycles[..]);
    cycle := 1;
    for i := 0 to cycles.Length
      invariant cycle == LcmOf(values[..i])
    {
      assert values[..i + 1][..i] == values[..i];
      cycle := Lcm(cycle, cycles[i].value);
    }
    assert values[..cycles.Length] == values;
  }
}
