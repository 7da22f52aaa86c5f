/** The two puzzle answers of day 20, each building a fresh circuit. */
module Day20Parts {
  import opened Common
  import opened Day20
  import opened Day20Press
  import opened Day20Circuit
  import opened NumInteger

  function PartOnePresses(): nat { 1000 }

  /** `part_one`: press the button 1000 times, carrying the module states
      over, and multiply the total high and low pulse counts. A press that
      panics or exceeds `fuel` ends the run with its status. */
  method PartOne(lines: seq<string>, keyOrder: seq<string>, fuel: nat) returns (status: Status, answer: nat)
    requires Parsable(lines) && IsKeyOrder(lines, keyOrder) && Broadcaster in Declarations(lines)
    ensures var ps := Presses(InitialIO(lines, keyOrder), InitialModules(lines, keyOrder), PartOnePresses(), fuel);
      PressedThrough(ps, PartOnePresses(), status) && (status == Finished ==> answer == PulseScore(ps))
  {
    var circuit := new Circuit.FromInput(lines, keyOrder);
    status, answer := circuit.PulseProduct(PartOnePresses(), fuel);
  }

  /** `part_two`: press until every watched slot has fired at least once,
      recording for each the number of the first press after which it had
      fired, and return the lcm of those numbers. The source loops without
      bound; here at most `maxPresses` presses are made, and `presses` is
      how many were. */
  method PartTwo(lines: seq<string>, keyOrder: seq<string>, fuel: nat, maxPresses: nat)
    returns (status: Status, presses: nat, answer: Option<nat>)
    requires Parsable(lines) && IsKeyOrder(lines, keyOrder) && Broadcaster in Declarations(lines)
    ensures var ps := Presses(InitialIO(lines, keyOrder), InitialModules(lines, keyOrder), presses, fuel);
      |ps| == presses && CyclesResult(ps, maxPresses, status, answer)
  {
    var circuit := new Circuit.FromInput(lines, keyOrder);
    status, presses, answer := circuit.PressUntilCycles(maxPresses, fuel);
  }
}
