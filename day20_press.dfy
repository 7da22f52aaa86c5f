/** One button press of the day-20 circuit as a function of the module
    states: the first-in-first-out pulse queue run to exhaustion, and
    repeated presses with the state carried over. */
module Day20Press {
  import opened Common
  import opened Day20
  import opened NumInteger

  /** A pulse in flight. */
  datatype Sent = Sent(target: string, sender: string, pulse: Pulse)

  /** The press in progress: module states, the FIFO queue, the counters,
      plus the record of every pulse popped (`log`) and every pulse ever
      queued (`sent`). */
  datatype PressState = PressState(
    modules: map<string, ModuleType>,
    queue: seq<Sent>,
    low: nat,
    high: nat,
    triggers: seq<nat>,
    log: seq<Sent>,
    sent: seq<Sent>)

  datatype Status = Finished | Panicked | OutOfFuel

  datatype PressOutcome = PressOutcome(status: Status, state: PressState)

  /** The single low pulse from the button to the broadcaster. */
  function StartPress(modules: map<string, ModuleType>): PressState
  {
    var first := Sent(Broadcaster, Button, Low);
    PressState(modules, [first], 0, 0, seq(WatchedSlots, _ => 0), [], [first])
  }

  /** One pulse per output, in output order, from `sender` at level `p`. */
  function Emit(outputs: seq<string>, sender: string, p: Pulse): (r: seq<Sent>)
    ensures |r| == |outputs|
    ensures forall i :: 0 <= i < |r| ==> r[i] == Sent(outputs[i], sender, p)
  {
    seq(|outputs|, i requires 0 <= i < |outputs| => Sent(outputs[i], sender, p))
  }

  /** The watched conjunction's slots that are High add one to their trigger
      counter; a High slot with no counter is an out-of-range index. */
  function Tally(triggers: seq<nat>, memory: seq<Pulse>): (r: Option<seq<nat>>)
    ensures r.None? <==> exists i :: |triggers| <= i < |memory| && memory[i] == High
    ensures r.Some? ==> |r.value| == |triggers|
    ensures r.Some? ==> forall i :: 0 <= i < |triggers| ==>
              r.value[i] == triggers[i] + (if i < |memory| && memory[i] == High then 1 else 0)
  {
    if exists i :: |triggers| <= i < |memory| && memory[i] == High then None
    else Some(seq(|triggers|, i requires 0 <= i < |triggers| =>
                triggers[i] + (if i < |memory| && memory[i] == High then 1 else 0)))
  }

  /** Index of the first occurrence of `x`, or 0 when there is none. */
  function PositionOrZero(s: seq<string>, x: string): (r: nat)
    ensures x in s ==> r < |s| && s[r] == x && forall j :: 0 <= j < r ==> s[j] != x
    ensures x !in s ==> r == 0
  {
    if s == [] then 0
    else if s[0] == x then 0
    else if x in s[1..] then 1 + PositionOrZero(s[1..], x)
    else 0
  }

  /** What the module `head.target` does with the head pulse: tally the
      watched slots, find the sender's slot, react, and produce one pulse
      per output. `None` is a panic: a High watched slot without a counter,
      a module without wiring, or a conjunction slot out of range. */
  function React(io: map<string, ModuleIO>, modules: map<string, ModuleType>, triggers: seq<nat>, head: Sent)
    : (r: Option<(map<string, ModuleType>, seq<nat>, seq<Sent>)>)
    requires head.target in modules
    ensures r.Some? ==> Shapes(modules, r.value.0) && |r.value.1| == |triggers|
  {
    var m := modules[head.target];
    var tally := if head.target == Watched && m.Conjunction? then Tally(triggers, m.memory) else Some(triggers);
    if tally.None? || head.target !in io then None
    else
      var idx := PositionOrZero(io[head.target].input, head.sender);
      if m.Conjunction? && idx >= |m.memory| then None
      else
        var (m', out) := Process(m, head.pulse, idx);
        var emitted := if out.Some? then Emit(io[head.target].output, head.target, out.value) else [];
        Some((modules[head.target := m'], tally.value, emitted))
  }

  /** One turn of the loop in `Circuit::push_button`: pop the head pulse and
      count it; drop it when its target has no module; otherwise let the
      module react and queue what it emits. `None` is a panic. */
  function Step(io: map<string, ModuleIO>, s: PressState): (r: Option<PressState>)
    requires |s.queue| > 0
  {
    var head := s.queue[0];
    var low := if head.pulse == Low then s.low + 1 else s.low;
    var high := if head.pulse == High then s.high + 1 else s.high;
    var popped := s.(queue := s.queue[1..], low := low, high := high, log := s.log + [head]);
    if head.target !in s.modules then Some(popped)
    else
      match React(io, s.modules, s.triggers, head)
      case None => None
      case Some((modules', triggers', emitted)) =>
        Some(popped.(modules := modules', queue := popped.queue + emitted,
                     triggers := triggers', sent := s.sent + emitted))
  }

  /** Run the queue until it is empty, a panic occurs, or `fuel` pulses
      have been handled. */
  function RunPress(io: map<string, ModuleIO>, s: PressState, fuel: nat): (r: PressOutcome)
    decreases fuel
  {
    if s.queue == [] then PressOutcome(Finished, s)
    else if fuel == 0 then PressOutcome(OutOfFuel, s)
    else
      match Step(io, s)
      case None => PressOutcome(Panicked, s)
      case Some(s') => RunPress(io, s', fuel - 1)
  }

  function CountLevel(log: seq<Sent>, p: Pulse): nat
  {
    if log == [] then 0
    else CountLevel(log[..|log| - 1], p) + (if log[|log| - 1].pulse == p then 1 else 0)
  }

  /** The bookkeeping a press keeps: the popped pulses followed by the waiting
      ones are exactly the pulses queued so far, in queuing order (first in,
      first out), and each popped pulse was counted once, by its level. */
  predicate Accounted(s: PressState)
  {
    && s.log + s.queue == s.sent
    && s.low == CountLevel(s.log, Low)
    && s.high == CountLevel(s.log, High)
  }

  /** The shape of one step: the head is popped into the log and counted,
      the pulses `emitted` go behind the waiting ones and into `sent`, and
      the module shapes and the number of counters stay. */
  lemma {:induction false} StepForm(io: map<string, ModuleIO>, s: PressState) returns (emitted: seq<Sent>)
    requires |s.queue| > 0 && Step(io, s).Some?
    ensures var s' := Step(io, s).value;
      var head := s.queue[0];
      && s'.queue == s.queue[1..] + emitted && s'.sent == s.sent + emitted
      && s'.log == s.log + [head]
      && s'.low == s.low + (if head.pulse == Low then 1 else 0)
      && s'.high == s.high + (if head.pulse == High then 1 else 0)
      && Shapes(s.modules, s'.modules) && |s'.triggers| == |s.triggers|
  {
    var head := s.queue[0];
    if head.target !in s.modules {
      emitted := [];
      assert s.queue[1..] + [] == s.queue[1..];
      assert s.sent + [] == s.sent;
    } else {
      emitted := React(io, s.modules, s.triggers, head).value.2;
    }
  }

  /** Popping the head into the log, counting it and queuing `emitted`
      behind the waiting pulses keeps the bookkeeping. */
  lemma {:induction false} AccountedStep(s: PressState, s': PressState, emitted: seq<Sent>)
    requires |s.queue| > 0 && Accounted(s)
    requires s'.queue == s.queue[1..] + emitted && s'.sent == s.sent + emitted
    requires s'.log == s.log + [s.queue[0]]
    requires s'.low == s.low + (if s.queue[0].pulse == Low then 1 else 0)
    requires s'.high == s.high + (if s.queue[0].pulse == High then 1 else 0)
    ensures Accounted(s') && s'.low + s'.high == s.low + s.high + 1 && s.queue[1..] <= s'.queue
  {
    var head := s.queue[0];
    assert (s.log + [head])[..|s.log|] == s.log;
    assert s'.log + s'.queue == s.log + s.queue + emitted by {
      assert s.queue == [head] + s.queue[1..];
      assert s.log + [head] + s.queue[1..] == s.log + s.queue;
    }
  }

  /** One step keeps the bookkeeping and the module shapes; the popped pulse
      is the old head, and whatever is queued goes behind what was waiting. */
  lemma {:induction false} StepKeeps(io: map<string, ModuleIO>, s: PressState)
    requires |s.queue| > 0 && Accounted(s) && Step(io, s).Some?
    ensures var s' := Step(io, s).value;
      && Accounted(s')
      && Shapes(s.modules, s'.modules)
      && s'.log == s.log + [s.queue[0]]
      && s'.low + s'.high == s.low + s.high + 1
      && s.queue[1..] <= s'.queue
      && |s'.triggers| == |s.triggers|
  {
    var emitted := StepForm(io, s);
    AccountedStep(s, Step(io, s).value, emitted);
  }

  /** A whole press keeps the bookkeeping and the module shapes, and it
      pops exactly the pulses it counts. */
  lemma {:induction false} RunPressKeeps(io: map<string, ModuleIO>, s: PressState, fuel: nat)
    requires Accounted(s)
    ensures var r := RunPress(io, s, fuel);
      && Accounted(r.state)
      && Shapes(s.modules, r.state.modules)
      && s.log <= r.state.log
      && r.state.low + r.state.high == s.low + s.high + (|r.state.log| - |s.log|)
      && (r.status == Finished ==> r.state.queue == [])
      && |r.state.triggers| == |s.triggers|
    decreases fuel
  {
    if s.queue != [] && fuel > 0 {
      match Step(io, s)
      case None =>
      case Some(s') =>
        StepKeeps(io, s);
        RunPressKeeps(io, s', fuel - 1);
        ShapesTransitive(s.modules, s'.modules, RunPress(io, s', fuel - 1).state.modules);
    }
  }

  /** A pulse to a name without a module is counted and dropped: nothing
      else changes and nothing is queued. */
  lemma {:induction false} DropsUnknown(io: map<string, ModuleIO>, s: PressState)
    requires |s.queue| > 0 && s.queue[0].target !in s.modules
    ensures Step(io, s).Some?
    ensures var s' := Step(io, s).value;
      s'.modules == s.modules && s'.queue == s.queue[1..] && s'.triggers == s.triggers
      && s'.sent == s.sent
  {
  }

  /** The step for a pulse whose target has a module, in terms of the
      module's reaction: a panic, or the reaction's states, counters and
      pulses with the head popped and counted. */
  lemma {:induction false} StepReacts(io: map<string, ModuleIO>, s: PressState)
    requires |s.queue| > 0 && s.queue[0].target in s.modules
    ensures var head := s.queue[0];
      var r := React(io, s.modules, s.triggers, head);
      && (r.None? ==> Step(io, s).None?)
      && (r.Some? ==> Step(io, s) == Some(PressState(r.value.0, s.queue[1..] + r.value.2,
                                                     s.low + (if head.pulse == Low then 1 else 0),
                                                     s.high + (if head.pulse == High then 1 else 0),
                                                     r.value.1, s.log + [head], s.sent + r.value.2)))
  {
  }

  /** A module that reacts changes only its own state, by `Process`, and
      queues one pulse per output, at the emitted level, behind everything
      already waiting; a silent module queues nothing. */
  lemma {:induction false} EmitsInOrder(io: map<string, ModuleIO>, s: PressState)
    requires |s.queue| > 0 && s.queue[0].target in s.modules && Step(io, s).Some?
    ensures var head := s.queue[0];
      var m := s.modules[head.target];
      var idx := PositionOrZero(io[head.target].input, head.sender);
      var s' := Step(io, s).value;
      && head.target in io
      && (m.Conjunction? ==> idx < |m.memory|)
      && s'.modules == s.modules[head.target := Process(m, head.pulse, idx).0]
      && s'.queue == s.queue[1..] + (match Process(m, head.pulse, idx).1
                                     case None => []
                                     case Some(p) => Emit(io[head.target].output, head.target, p))
  {
  }

  // ---------------------------------------------------------------------
  // Repeated presses
  // ---------------------------------------------------------------------

  /** The outcomes of up to `n` presses in a row from `modules`, each press
      starting from the module states the previous one left; it stops after
      the first press that does not finish. */
  function Presses(io: map<string, ModuleIO>, modules: map<string, ModuleType>, n: nat, fuel: nat)
    : (r: seq<PressOutcome>)
    ensures |r| <= n && (n > 0 ==> |r| >= 1)
    ensures forall i :: 0 <= i < |r| - 1 ==> r[i].status == Finished
    ensures 0 < |r| < n ==> r[|r| - 1].status != Finished
    decreases n
  {
    if n == 0 then []
    else
      var first := RunPress(io, StartPress(modules), fuel);
      if first.status != Finished then [first]
      else [first] + Presses(io, first.state.modules, n - 1, fuel)
  }

  /** The module states after the presses `ps`, starting from `modules`. */
  function After(modules: map<string, ModuleType>, ps: seq<PressOutcome>): map<string, ModuleType>
  {
    if ps == [] then modules else ps[|ps| - 1].state.modules
  }

  predicate AllFinished(ps: seq<PressOutcome>)
  {
    forall i :: 0 <= i < |ps| ==> ps[i].status == Finished
  }

  /** One more press appends its outcome, run from the states the earlier
      presses left. */
  lemma {:induction false} PressesSnoc(io: map<string, ModuleIO>, modules: map<string, ModuleType>, n: nat, fuel: nat)
    requires |Presses(io, modules, n, fuel)| == n && AllFinished(Presses(io, modules, n, fuel))
    ensures Presses(io, modules, n + 1, fuel)
         == Presses(io, modules, n, fuel) + [RunPress(io, StartPress(After(modules, Presses(io, modules, n, fuel))), fuel)]
    decreases n
  {
    if n > 0 {
      var first := RunPress(io, StartPress(modules), fuel);
      var ps := Presses(io, modules, n, fuel);
      assert ps[0] == first;
      var rest := Presses(io, first.state.modules, n - 1, fuel);
      assert ps == [first] + rest;
      assert AllFinished(rest) by {
        forall i | 0 <= i < |rest|
          ensures rest[i].status == Finished
        {
          assert rest[i] == ps[i + 1];
        }
      }
      PressesSnoc(io, first.state.modules, n - 1, fuel);
      assert After(modules, ps) == After(first.state.modules, rest);
    }
  }

  /** The bookkeeping of a loop over presses: the next press extends the
      outcomes, and when it finishes the totals and the states move on. */
  lemma {:induction false} PressesStep(io: map<string, ModuleIO>, start: map<string, ModuleType>, done: seq<PressOutcome>, fuel: nat)
    requires done == Presses(io, start, |done|, fuel) && AllFinished(done)
    ensures var outcome := RunPress(io, StartPress(After(start, done)), fuel);
      var done' := done + [outcome];
      && done' == Presses(io, start, |done| + 1, fuel)
      && (outcome.status == Finished ==>
            && AllFinished(done')
            && After(start, done') == outcome.state.modules
            && TotalLow(done') == TotalLow(done) + outcome.state.low
            && TotalHigh(done') == TotalHigh(done) + outcome.state.high)
  {
    PressesSnoc(io, start, |done|, fuel);
    var done' := done + [RunPress(io, StartPress(After(start, done)), fuel)];
    assert done'[..|done|] == done;
  }

  /** Presses stop at the first press that does not finish: asking for more
      presses changes nothing after it. */
  lemma {:induction false} PressesPrefix(io: map<string, ModuleIO>, modules: map<string, ModuleType>,
                                         n: nat, m: nat, fuel: nat)
    requires n <= m && |Presses(io, modules, n, fuel)| == n && n > 0
    requires Presses(io, modules, n, fuel)[n - 1].status != Finished
    ensures Presses(io, modules, m, fuel) == Presses(io, modules, n, fuel)
    decreases n
  {
    var first := RunPress(io, StartPress(modules), fuel);
    if first.status == Finished {
      PressesPrefix(io, first.state.modules, n - 1, m - 1, fuel);
    }
  }

  function TotalLow(ps: seq<PressOutcome>): nat
  {
    if ps == [] then 0 else TotalLow(ps[..|ps| - 1]) + ps[|ps| - 1].state.low
  }

  function TotalHigh(ps: seq<PressOutcome>): nat
  {
    if ps == [] then 0 else TotalHigh(ps[..|ps| - 1]) + ps[|ps| - 1].state.high
  }

  /** How a run of up to `n` presses ended: with the status of its last
      press, and when that finished, after all `n` presses finished. */
  predicate PressedThrough(ps: seq<PressOutcome>, n: nat, status: Status)
  {
    && 1 <= |ps| && status == ps[|ps| - 1].status
    && (status == Finished ==> |ps| == n && AllFinished(ps))
  }

  /** The answer of the first part: total high pulses times total low pulses. */
  function PulseScore(ps: seq<PressOutcome>): nat
  {
    ProductOfNats(TotalHigh(ps), TotalLow(ps));
    TotalHigh(ps) * TotalLow(ps)
  }

  // ---------------------------------------------------------------------
  // The first press after which each watched slot fired
  // ---------------------------------------------------------------------

  /** Slot `i`'s counter was positive at the end of this press. */
  predicate Fired(o: PressOutcome, i: nat)
  {
    i < |o.state.triggers| && o.state.triggers[i] > 0
  }

  /** The 1-based number of the first press in `ps` after which slot `i`
      had fired, as `part_two` records it. */
  function FirstFiring(ps: seq<PressOutcome>, i: nat): Option<nat>
  {
    if ps == [] then None
    else match FirstFiring(ps[..|ps| - 1], i)
      case Some(p) => Some(p)
      case None => if Fired(ps[|ps| - 1], i) then Some(|ps|) else None
  }

  /** The recorded press is the first one after which slot `i` fired, and
      no record means it never fired. */
  lemma {:induction false} FirstFiringIsFirst(ps: seq<PressOutcome>, i: nat)
    ensures FirstFiring(ps, i).Some? ==>
              var p := FirstFiring(ps, i).value;
              1 <= p <= |ps| && Fired(ps[p - 1], i) && forall q :: 0 <= q < p - 1 ==> !Fired(ps[q], i)
    ensures FirstFiring(ps, i).None? ==> forall q :: 0 <= q < |ps| ==> !Fired(ps[q], i)
  {
    if ps != [] {
      var init := ps[..|ps| - 1];
      FirstFiringIsFirst(init, i);
      assert forall q :: 0 <= q < |init| ==> init[q] == ps[q];
    }
  }

  /** A press that finishes extends the first-firing record exactly as
      `RecordFirings` does. */
  lemma {:induction false} FirstFiringSnoc(done: seq<PressOutcome>, o: PressOutcome, i: nat)
    ensures FirstFiring(done + [o], i)
         == (if FirstFiring(done, i).None? && Fired(o, i) then Some(|done| + 1) else FirstFiring(done, i))
  {
    assert (done + [o])[..|done|] == done;
  }

  predicate AllFound(ps: seq<PressOutcome>)
  {
    forall i :: 0 <= i < WatchedSlots ==> FirstFiring(ps, i).Some?
  }

  /** Once recorded, a slot stays recorded: if the first `p` presses do not
      record every slot, no shorter prefix does. */
  lemma {:induction false} PrefixesNotFound(ps: seq<PressOutcome>, p: nat)
    requires p <= |ps| && !AllFound(ps[..p])
    ensures forall q :: 0 <= q <= p ==> !AllFound(ps[..q])
  {
    forall q | 0 <= q <= p
      ensures !AllFound(ps[..q])
    {
      var i :| 0 <= i < WatchedSlots && FirstFiring(ps[..p], i).None?;
      FirstFiringIsFirst(ps[..p], i);
      FirstFiringIsFirst(ps[..q], i);
    }
  }

  function Cycles(ps: seq<PressOutcome>): (c: seq<nat>)
    requires AllFound(ps)
    ensures |c| == WatchedSlots
  {
    seq(WatchedSlots, i requires 0 <= i < WatchedSlots => FirstFiring(ps, i).value)
  }

  /** The cycle table of `part_two` after the presses `ps`: each slot holds
      its first firing. */
  function FirstFirings(ps: seq<PressOutcome>): (t: seq<Option<nat>>)
    ensures |t| == WatchedSlots
  {
    seq(WatchedSlots, i requires 0 <= i < WatchedSlots => FirstFiring(ps, i))
  }

  /** One press's update of the cycle table: an empty slot whose counter is
      positive records the press number; the other slots keep their value. */
  function Record(table: seq<Option<nat>>, triggers: seq<nat>, press: nat): (t: seq<Option<nat>>)
    requires |triggers| == |table|
    ensures |t| == |table|
  {
    seq(|table|, j requires 0 <= j < |table| =>
      if table[j].None? && triggers[j] > 0 then Some(press) else table[j])
  }

  /** Recording each finished press keeps the table equal to the first
      firings of the presses so far. */
  lemma {:induction false} RecordFirstFirings(done: seq<PressOutcome>, o: PressOutcome)
    requires |o.state.triggers| == WatchedSlots
    ensures Record(FirstFirings(done), o.state.triggers, |done| + 1) == FirstFirings(done + [o])
  {
    forall i | 0 <= i < WatchedSlots
      ensures Record(FirstFirings(done), o.state.triggers, |done| + 1)[i] == FirstFirings(done + [o])[i]
    {
      FirstFiringSnoc(done, o, i);
    }
  }

  /** The values of a full cycle table. */
  function Recorded(table: seq<Option<nat>>): (r: seq<nat>)
    requires forall i :: 0 <= i < |table| ==> table[i].Some?
    ensures |r| == |table| && forall i :: 0 <= i < |r| ==> Some(r[i]) == table[i]
  {
    seq(|table|, i requires 0 <= i < |table| => table[i].value)
  }

  /** What the `part_two` loop delivers after the presses `ps` (at most
      `maxPresses` of them): it stops at the first press that does not
      finish, with that press's status and no answer; otherwise it stops
      right after the first press by which every slot has fired, answering
      the lcm of the slots' first firings; otherwise it has made all
      `maxPresses` presses without every slot firing and has no answer. */
  predicate CyclesResult(ps: seq<PressOutcome>, maxPresses: nat, status: Status, answer: Option<nat>)
  {
    && |ps| <= maxPresses
    && (status == Finished <==> AllFinished(ps))
    && (status != Finished ==> |ps| >= 1 && ps[|ps| - 1].status == status && answer.None?)
    && (forall q :: 0 <= q < |ps| ==> !AllFound(ps[..q]))
    && (answer.Some? ==> AllFound(ps) && answer.value == LcmOf(Cycles(ps)))
    && (answer.None? && status == Finished ==> |ps| == maxPresses && !AllFound(ps))
  }

  /** Stopping at a press that does not finish. */
  lemma {:induction false} StopAtFailure(before: seq<PressOutcome>, o: PressOutcome, maxPresses: nat)
    requires |before| < maxPresses && AllFinished(before) && !AllFound(before)
    requires o.status != Finished
    ensures CyclesResult(before + [o], maxPresses, o.status, None)
  {
    var done := before + [o];
    assert done[..|before|] == before;
    PrefixesNotFound(done, |before|);
    assert done[|done| - 1] == o;
  }

  /** A full table holds exactly the cycles. */
  lemma {:induction false} RecordedCycles(ps: seq<PressOutcome>)
    requires AllFound(ps)
    ensures forall i :: 0 <= i < WatchedSlots ==> FirstFirings(ps)[i].Some?
    ensures Recorded(FirstFirings(ps)) == Cycles(ps)
  {
  }

  /** The table is full exactly when every slot was found. */
  lemma {:induction false} FullTable(ps: seq<PressOutcome>)
    ensures AllFound(ps) <==> forall i :: 0 <= i < WatchedSlots ==> FirstFirings(ps)[i].Some?
  {
    assert forall i :: 0 <= i < WatchedSlots ==> FirstFirings(ps)[i] == FirstFiring(ps, i);
  }

  /** Stopping once the table is full. */
  lemma {:induction false} StopWhenFound(before: seq<PressOutcome>, o: PressOutcome, maxPresses: nat)
    requires |before| < maxPresses && AllFinished(before) && !AllFound(before)
    requires o.status == Finished && AllFound(before + [o])
    ensures CyclesResult(before + [o], maxPresses, Finished, Some(LcmOf(Cycles(before + [o]))))
  {
    var done := before + [o];
    assert done[..|before|] == before;
    PrefixesNotFound(done, |before|);
    assert forall i :: 0 <= i < |done| ==> done[i].status == Finished by {
      forall i | 0 <= i < |done| ensures done[i].status == Finished {
        if i < |before| { assert done[i] == before[i]; }
      }
    }
  }

  /** Stopping after the last allowed press without a full table. */
  lemma {:induction false} StopAtLimit(done: seq<PressOutcome>, maxPresses: nat)
    requires |done| == maxPresses && AllFinished(done) && !AllFound(done)
    ensures CyclesResult(done, maxPresses, Finished, None)
  {
    assert done[..|done|] == done;
    PrefixesNotFound(done, |done|);
  }
}
