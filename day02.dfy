/** Day 2: rock-paper-scissors rounds, scored by the shape played and the
    outcome. */
module Day02 {
  import opened Common

  datatype Move = Rock | Paper | Scissors

  datatype Winner = Player | Draw | Opponent

  /** The letter a line gives after the opponent's move. */
  datatype Direction = X | Y | Z

  datatype Round = Round(direction: Direction, opponent: Move)

  /** The shape score: 1, 2 or 3. */
  function MovePoints(m: Move): (p: nat)
    ensures 1 <= p <= 3
  {
    match m
    case Rock => 1
    case Paper => 2
    case Scissors => 3
  }

  /** The move `m` defeats. */
  function Beats(m: Move): Move
  {
    match m
    case Rock => Scissors
    case Paper => Rock
    case Scissors => Paper
  }

  /** `Move::winner`: `Player` when `m` defeats `other`, `Opponent` when
      `other` defeats `m`, `Draw` otherwise. */
  function WinnerOf(m: Move, other: Move): Winner
  {
    if other == Beats(m) then Player
    else if other == Beats(Beats(m)) then Opponent
    else Draw
  }

  /** The outcome score: 0, 3 or 6. */
  function WinnerPoints(w: Winner): (p: nat)
    ensures p == 0 || p == 3 || p == 6
  {
    match w
    case Opponent => 0
    case Draw => 3
    case Player => 6
  }

  /** `Beats` is a three-cycle: no move defeats itself, and three steps
      return to the start. */
  lemma {:induction false} BeatsCycle(m: Move)
    ensures Beats(m) != m && Beats(Beats(m)) != m && Beats(Beats(Beats(m))) == m
  {
  }

  /** `WinnerOf` means what it says: `Player` exactly when `m` defeats
      `other`, `Opponent` exactly when `other` defeats `m`, `Draw` exactly
      on equal moves. */
  lemma {:induction false} WinnerMeaning(m: Move, other: Move)
    ensures WinnerOf(m, other) == Player <==> other == Beats(m)
    ensures WinnerOf(m, other) == Opponent <==> m == Beats(other)
    ensures WinnerOf(m, other) == Draw <==> m == other
  {
    BeatsCycle(m);
    BeatsCycle(other);
  }

  function Swap(w: Winner): Winner
  {
    match w
    case Player => Opponent
    case Opponent => Player
    case Draw => Draw
  }

  /** Exchanging the two moves exchanges the winner and keeps a draw. */
  lemma {:induction false} WinnerSwap(m: Move, other: Move)
    ensures WinnerOf(other, m) == Swap(WinnerOf(m, other))
  {
    WinnerMeaning(m, other);
    WinnerMeaning(other, m);
  }

  function OpponentMove(s: string): Option<Move>
  {
    if s == "A" then Some(Rock) else if s == "B" then Some(Paper) else if s == "C" then Some(Scissors) else None
  }

  function DirectionOf(s: string): Option<Direction>
  {
    if s == "X" then Some(X) else if s == "Y" then Some(Y) else if s == "Z" then Some(Z) else None
  }

  /** A line either has no space, or has a known letter on each side of
      its first space; any other letter stops `read_elves` with
      `unimplemented!`. */
  predicate KnownLetters(line: string)
  {
    var halves := SplitOnce(line, " ");
    halves.Some? ==> OpponentMove(halves.value.0).Some? && DirectionOf(halves.value.1).Some?
  }

  /** One line of `read_elves`: the opponent's letter, a space, the
      player's letter; `None` when the line has no space. */
  function ParseRound(line: string): (r: Option<Round>)
    requires KnownLetters(line)
    ensures r.Some? <==> SplitOnce(line, " ").Some?
    ensures r.Some? ==> (Some(r.value.opponent) == OpponentMove(SplitOnce(line, " ").value.0)
                         && Some(r.value.direction) == DirectionOf(SplitOnce(line, " ").value.1))
  {
    var halves := SplitOnce(line, " ");
    if halves.None? then None
    else Some(Round(DirectionOf(halves.value.1).value, OpponentMove(halves.value.0).value))
  }

  /** `rounds` are the rounds of `lines`, line by line. */
  predicate ReadAs(lines: seq<string>, rounds: seq<Round>)
    requires forall i :: 0 <= i < |lines| ==> KnownLetters(lines[i])
  {
    |rounds| == |lines| && forall i :: 0 <= i < |lines| ==> ParseRound(lines[i]) == Some(rounds[i])
  }

  predicate AllRounds(lines: seq<string>)
    requires forall i :: 0 <= i < |lines| ==> KnownLetters(lines[i])
  {
    forall i :: 0 <= i < |lines| ==> ParseRound(lines[i]).Some?
  }

  lemma {:induction false} ReadAsSnoc(lines: seq<string>, rounds: seq<Round>, line: string, r: Round)
    requires forall i :: 0 <= i < |lines| ==> KnownLetters(lines[i])
    requires KnownLetters(line) && ReadAs(lines, rounds) && ParseRound(line) == Some(r)
    ensures forall i :: 0 <= i < |lines + [line]| ==> KnownLetters((lines + [line])[i])
    ensures ReadAs(lines + [line], rounds + [r])
  {
    var ls := lines + [line];
    assert forall i :: 0 <= i < |lines| ==> ls[i] == lines[i];
  }

  lemma {:induction false} AllRoundsSnoc(lines: seq<string>, line: string)
    requires forall i :: 0 <= i < |lines| ==> KnownLetters(lines[i])
    requires KnownLetters(line)
    ensures forall i :: 0 <= i < |lines + [line]| ==> KnownLetters((lines + [line])[i])
    ensures AllRounds(lines + [line]) <==> AllRounds(lines) && ParseRound(line).Some?
  {
    var ls := lines + [line];
    assert forall i :: 0 <= i < |lines| ==> ls[i] == lines[i];
    assert ls[|lines|] == line;
  }

  /** `read_elves`: one round per line; a line without a space makes the
      whole result `None`. */
  function ReadRounds(lines: seq<string>): (r: Option<seq<Round>>)
    requires forall i :: 0 <= i < |lines| ==> KnownLetters(lines[i])
    ensures r.Some? <==> AllRounds(lines)
    ensures r.Some? ==> ReadAs(lines, r.value)
  {
    if lines == [] then Some([])
    else
      var n := |lines| - 1;
      var init := ReadRounds(lines[..n]);
      var last := ParseRound(lines[n]);
      assert lines == lines[..n] + [lines[n]];
      AllRoundsSnoc(lines[..n], lines[n]);
      if init.None? || last.None? then None
      else
        ReadAsSnoc(lines[..n], init.value, lines[n], last.value);
        Some(init.value + [last.value])
  }

  /** The move a letter stands for in the first part. */
  function PlayedMove(d: Direction): Move
  {
    match d
    case X => Rock
    case Y => Paper
    case Z => Scissors
  }

  /** The round score of `part_one` as the code computes it: the outcome
      is taken from the opponent's side, `opponent.winner(player)`. */
  function PartOneRoundAsWritten(r: Round): nat
  {
    var m := PlayedMove(r.direction);
    MovePoints(m) + WinnerPoints(WinnerOf(r.opponent, m))
  }

  /** The round score of the first part as the rules intend it: the
      outcome from the player's side. */
  function PartOneRound(r: Round): (p: nat)
    ensures var m := PlayedMove(r.direction);
      p == MovePoints(m) + (if r.opponent == Beats(m) then 6 else if m == r.opponent then 3 else 0)
  {
    var m := PlayedMove(r.direction);
    WinnerMeaning(m, r.opponent);
    MovePoints(m) + WinnerPoints(WinnerOf(m, r.opponent))
  }

  /** The written score gives a won round's 6 points to rounds the player
      loses and 0 to rounds the player wins; draws agree. */
  lemma {:induction false} AsWrittenInvertsOutcome(r: Round)
    ensures var m := PlayedMove(r.direction);
      PartOneRoundAsWritten(r) == MovePoints(m) + (6 - WinnerPoints(WinnerOf(m, r.opponent)))
  {
    WinnerSwap(PlayedMove(r.direction), r.opponent);
  }

  /** A round that shows it: "A Z", Scissors against Rock, is a loss worth
      3 points, but the written score gives 9. */
  lemma {:induction false} AsWrittenCounterexample()
    ensures PartOneRound(Round(Z, Rock)) == 3
    ensures PartOneRoundAsWritten(Round(Z, Rock)) == 9
  {
  }

  function SumScores(rounds: seq<Round>, score: Round -> nat): nat
  {
    if rounds == [] then 0 else score(rounds[0]) + SumScores(rounds[1..], score)
  }

  function ShapeScore(r: Round): nat
  {
    MovePoints(PlayedMove(r.direction))
  }

  /** Over any rounds, the written and the intended first-part totals
      add up to twice the shape points plus six per round. */
  lemma {:induction false} WrittenPlusIntended(rounds: seq<Round>)
    ensures SumScores(rounds, PartOneRoundAsWritten) + SumScores(rounds, PartOneRound)
         == 2 * SumScores(rounds, ShapeScore) + 6 * |rounds|
  {
    if rounds != [] {
      AsWrittenInvertsOutcome(rounds[0]);
      WrittenPlusIntended(rounds[1..]);
    }
  }

  /** The outcome a letter asks for in the second part. */
  function Outcome(d: Direction): Winner
  {
    match d
    case X => Opponent
    case Y => Draw
    case Z => Player
  }

  /** The move `part_two` plays to reach the outcome. */
  function ChooseMove(opponent: Move, outcome: Winner): (m: Move)
    ensures WinnerOf(m, opponent) == outcome
  {
    BeatsCycle(opponent);
    match outcome
    case Player => Beats(Beats(opponent))
    case Draw => opponent
    case Opponent => Beats(opponent)
  }

  /** Only one move reaches a given outcome against a given move. */
  lemma {:induction false} ChooseMoveUnique(opponent: Move, outcome: Winner, m: Move)
    requires WinnerOf(m, opponent) == outcome
    ensures m == ChooseMove(opponent, outcome)
  {
    WinnerMeaning(m, opponent);
    BeatsCycle(opponent);
  }

  /** The round score of `part_two`: the shape of whichever move reaches
      the asked outcome, plus the outcome's points. */
  function PartTwoRound(r: Round): (p: nat)
    ensures forall m :: WinnerOf(m, r.opponent) == Outcome(r.direction) ==>
              p == MovePoints(m) + WinnerPoints(Outcome(r.direction))
  {
    var outcome := Outcome(r.direction);
    forall m | WinnerOf(m, r.opponent) == outcome
      ensures m == ChooseMove(r.opponent, outcome)
    {
      ChooseMoveUnique(r.opponent, outcome, m);
    }
    MovePoints(ChooseMove(r.opponent, outcome)) + WinnerPoints(outcome)
  }

  /** `part_one` as written and as intended, and `part_two`: the sum of the
      round scores; the lines must parse (`unwrap`). */
  function PartOneAsWritten(lines: seq<string>): nat
    requires forall i :: 0 <= i < |lines| ==> KnownLetters(lines[i])
    requires ReadRounds(lines).Some?
  {
    SumScores(ReadRounds(lines).value, PartOneRoundAsWritten)
  }

  function PartOne(lines: seq<string>): nat
    requires forall i :: 0 <= i < |lines| ==> KnownLetters(lines[i])
    requires ReadRounds(lines).Some?
  {
    SumScores(ReadRounds(lines).value, PartOneRound)
  }

  function PartTwo(lines: seq<string>): nat
    requires forall i :: 0 <= i < |lines| ==> KnownLetters(lines[i])
    requires ReadRounds(lines).Some?
  {
    SumScores(ReadRounds(lines).value, PartTwoRound)
  }

  /** The example's rounds "A Y", "B X", "C Z" score 15 both as written and
      as intended, which is why the written order goes unnoticed; the
      second part scores 12. */
  lemma {:induction false} ExampleScores()
    ensures var rounds := [Round(Y, Rock), Round(X, Paper), Round(Z, Scissors)];
      && SumScores(rounds, PartOneRoundAsWritten) == 15
      && SumScores(rounds, PartOneRound) == 15
      && SumScores(rounds, PartTwoRound) == 12
  {
    var rounds := [Round(Y, Rock), Round(X, Paper), Round(Z, Scissors)];
    assert rounds[1..] == [Round(X, Paper), Round(Z, Scissors)];
    assert rounds[1..][1..] == [Round(Z, Scissors)];
    assert rounds[1..][1..][1..] == [];
  }
}
