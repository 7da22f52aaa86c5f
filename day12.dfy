/** Day 12: rows of springs, some of unknown state, checked against the
    lengths of their runs of broken springs. */
module Day12 {
  import opened Common

  datatype Spring = Operational | Broken | Unknown

  /** `SpringState::from_char`; any other character is a panic. */
  function FromChar(c: char): (r: Option<Spring>)
    ensures r.Some? <==> c in "#.?"
  {
    if c == '#' then Some(Broken)
    else if c == '.' then Some(Operational)
    else if c == '?' then Some(Unknown)
    else None
  }

  function ToChar(s: Spring): char
  {
    match s
    case Broken => '#'
    case Operational => '.'
    case Unknown => '?'
  }

  lemma {:induction false} CharRoundTrip(s: Spring)
    ensures FromChar(ToChar(s)) == Some(s)
  {
  }

  function Pow2(k: nat): (p: nat)
    ensures p >= 1
  {
    if k == 0 then 1 else 2 * Pow2(k - 1)
  }

  /** Bit `k` of `a`: `(a >> k) & 1 == 1`. */
  predicate Bit(a: nat, k: nat)
  {
    (a / Pow2(k)) % 2 == 1
  }

  /** The number of unknown springs in a row. */
  function Unknowns(row: seq<Spring>): (n: nat)
    ensures n <= |row|
  {
    if row == [] then 0 else Unknowns(row[..|row| - 1]) + (if row[|row| - 1] == Unknown then 1 else 0)
  }

  /** The row with its unknown springs decided by `a`, the first unknown
      from the left taking bit `k`, the next bit `k + 1`, and so on. */
  function AssignFrom(row: seq<Spring>, a: nat, k: nat): (r: seq<Spring>)
    ensures |r| == |row|
    ensures forall i :: 0 <= i < |r| ==> r[i] != Unknown
  {
    if row == [] then []
    else if row[0] == Unknown then [if Bit(a, k) then Broken else Operational] + AssignFrom(row[1..], a, k + 1)
    else [row[0]] + AssignFrom(row[1..], a, k)
  }

  function Assign(row: seq<Spring>, a: nat): seq<Spring>
  {
    AssignFrom(row, a, 0)
  }

  lemma {:induction false} UnknownsCons(row: seq<Spring>)
    requires row != []
    ensures Unknowns(row) == (if row[0] == Unknown then 1 else 0) + Unknowns(row[1..])
    decreases |row|
  {
    if |row| > 1 {
      var n := |row| - 1;
      UnknownsCons(row[..n]);
      assert row[..n][1..] == row[1..][..n - 1];
      assert row[..n][0] == row[0];
    } else {
      assert row[..0] == [] && row[1..] == [];
    }
  }

  /** A known spring keeps its state, and the unknown spring at `i` is
      broken exactly when the bit numbered by the unknowns before it is set. */
  lemma {:induction false} AssignAt(row: seq<Spring>, a: nat, k: nat, i: nat)
    requires i < |row|
    ensures row[i] != Unknown ==> AssignFrom(row, a, k)[i] == row[i]
    ensures row[i] == Unknown ==> (AssignFrom(row, a, k)[i] == Broken <==> Bit(a, k + Unknowns(row[..i])))
    decreases i
  {
    if i > 0 {
      AssignAt(row[1..], a, if row[0] == Unknown then k + 1 else k, i - 1);
      UnknownsCons(row[..i]);
      assert row[..i][1..] == row[1..][..i - 1];
      assert row[..i][0] == row[0];
    }
  }

  /** Bit `k + 1` of `a` is bit `k` of `a / 2`. */
  lemma {:induction false} BitShift(a: nat, k: nat)
    ensures Bit(a, k + 1) == Bit(a / 2, k)
  {
    var p := Pow2(k);
    var q, r := a / 2, a % 2;
    var q2, r2 := q / p, q % p;
    assert q == p * q2 + r2;
    assert a == (2 * p) * q2 + (2 * r2 + r);
    DivUnique(a, 2 * p, q2, 2 * r2 + r);
  }

  lemma {:induction false} AssignShift(row: seq<Spring>, a: nat, k: nat)
    ensures AssignFrom(row, a, k + 1) == AssignFrom(row, a / 2, k)
    decreases |row|
  {
    if row != [] {
      if row[0] == Unknown {
        BitShift(a, k);
        AssignShift(row[1..], a, k + 1);
      } else {
        AssignShift(row[1..], a, k);
      }
    }
  }

  /** Filling a row from `a`: the first unknown takes the lowest bit, and the
      rest of the row is filled from the remaining bits. */
  lemma {:induction false} AssignCons(row: seq<Spring>, a: nat)
    requires row != []
    ensures row[0] == Unknown ==> Assign(row, a) == [if a % 2 == 1 then Broken else Operational] + Assign(row[1..], a / 2)
    ensures row[0] != Unknown ==> Assign(row, a) == [row[0]] + Assign(row[1..], a)
  {
    if row[0] == Unknown {
      AssignShift(row[1..], a, 0);
    }
  }

  /** The lengths of the maximal runs of broken springs, left to right,
      when a run of length `run` has just been seen. */
  function RunsFrom(run: nat, states: seq<Spring>): seq<nat>
    decreases |states|
  {
    if states == [] then (if run > 0 then [run] else [])
    else if states[0] == Broken then RunsFrom(run + 1, states[1..])
    else (if run > 0 then [run] else []) + RunsFrom(0, states[1..])
  }

  function Runs(states: seq<Spring>): seq<nat>
  {
    RunsFrom(0, states)
  }

  /** A run under way shows up first, at least as long as it is so far. */
  lemma {:induction false} RunHead(run: nat, states: seq<Spring>)
    requires run > 0
    ensures RunsFrom(run, states) != [] && RunsFrom(run, states)[0] >= run
    decreases |states|
  {
    if states != [] && states[0] == Broken {
      RunHead(run + 1, states[1..]);
    }
  }

  /** `check_valid_assignment`'s state between two springs: the last
      spring seen, the group being matched (what is left of it) and the
      groups after it. */
  datatype Scan = Scan(last: Option<Spring>, current: Option<nat>, rest: seq<nat>)

  /** The group iterator's next item. */
  function Next(groups: seq<nat>): (Option<nat>, seq<nat>)
  {
    if groups == [] then (None, []) else (Some(groups[0]), groups[1..])
  }

  function Start(groups: seq<nat>): Scan
  {
    var (current, rest) := Next(groups);
    Scan(None, current, rest)
  }

  /** One spring of the loop; `None` where the loop returns false. */
  function Step(st: Scan, s: Spring): Option<Scan>
  {
    if s == Broken && st.current.Some? && st.current.value > 0 then
      Some(Scan(Some(s), Some(st.current.value - 1), st.rest))
    else if s == Operational && st.last.None? then Some(Scan(Some(s), st.current, st.rest))
    else if s == Operational && st.last == Some(Broken) && st.current == Some(0) then
      var (current, rest) := Next(st.rest);
      Some(Scan(Some(s), current, rest))
    else if s == Operational && st.last == Some(Operational) then Some(Scan(Some(s), st.current, st.rest))
    else None
  }

  /** After the last spring: a finished group is let go, and then no group
      may be left. */
  predicate Finish(st: Scan)
  {
    st.current.None? || (st.current == Some(0) && Next(st.rest).0.None?)
  }

  function CheckFrom(st: Scan, states: seq<Spring>): bool
    decreases |states|
  {
    if states == [] then Finish(st)
    else
      match Step(st, states[0])
      case None => false
      case Some(next) => CheckFrom(next, states[1..])
  }

  predicate Positive(groups: seq<nat>)
  {
    forall i :: 0 <= i < |groups| ==> groups[i] > 0
  }

  /** The groups a scan still expects, given the length `run` of the run
      under way. */
  function Expected(st: Scan, run: nat): seq<nat>
  {
    match st.current
    case None => []
    case Some(g) => [run + g] + st.rest
  }

  /** The scan agrees with a run of length `run`: inside a run exactly when
      the last spring was broken; outside one, the group ahead is whole and
      positive, and no group remains once the groups are used up. */
  predicate Consistent(st: Scan, run: nat)
  {
    Positive(st.rest)
    && (st.last == Some(Broken) <==> run > 0)
    && (st.last == Some(Broken) ==> st.current.Some?)
    && (st.last != Some(Broken) ==> (st.current.None? ==> st.rest == []) && (st.current.Some? ==> st.current.value > 0))
    && st.last != Some(Unknown)
  }

  lemma ConsEq(x: nat, a: seq<nat>, b: seq<nat>)
    ensures ([x] + a == [x] + b) == (a == b)
  {
    if [x] + a == [x] + b {
      assert a == ([x] + a)[1..];
    }
  }

  predicate Known(states: seq<Spring>)
  {
    forall i :: 0 <= i < |states| ==> states[i] != Unknown
  }

  lemma KnownTail(states: seq<Spring>)
    requires Known(states) && states != []
    ensures states[0] != Unknown && Known(states[1..])
  {
    assert forall i :: 0 <= i < |states| - 1 ==> states[1..][i] == states[i + 1];
  }

  /** At the end of the row, the check's last test holds exactly when the
      run under way is the last group expected. */
  lemma FinishMatches(st: Scan, run: nat)
    requires Consistent(st, run)
    ensures Finish(st) == (RunsFrom(run, []) == Expected(st, run))
  {
    match st.current
    case None =>
      assert run == 0;
    case Some(g) =>
      if g == 0 {
        assert run > 0 && RunsFrom(run, []) == [run];
        assert Next(st.rest).0.None? <==> st.rest == [];
        ConsEq(run, [], st.rest);
      } else if RunsFrom(run, []) != [] {
        assert RunsFrom(run, [])[0] != Expected(st, run)[0];
      }
  }

  /** The loop accepts exactly the springs whose runs are the groups it
      still expects. */
  lemma {:induction false} CheckMatchesRuns(st: Scan, run: nat, states: seq<Spring>)
    requires Consistent(st, run) && Known(states)
    ensures CheckFrom(st, states) == (RunsFrom(run, states) == Expected(st, run))
    decreases |states|, 1
  {
    if states == [] {
      FinishMatches(st, run);
    } else {
      KnownTail(states);
      if states[0] == Broken {
        CheckBroken(st, run, states);
      } else {
        CheckOperational(st, run, states);
      }
    }
  }

  /** A broken spring either lengthens the run under way, or it is one too
      many for the group, or there is no group for it. */
  lemma {:induction false} CheckBroken(st: Scan, run: nat, states: seq<Spring>)
    requires Consistent(st, run) && states != [] && states[0] == Broken && Known(states[1..])
    ensures CheckFrom(st, states) == (RunsFrom(run, states) == Expected(st, run))
    decreases |states|, 0
  {
    var tail := states[1..];
    assert RunsFrom(run, states) == RunsFrom(run + 1, tail);
    if st.current.Some? && st.current.value > 0 {
      var next := Scan(Some(Broken), Some(st.current.value - 1), st.rest);
      assert Step(st, Broken) == Some(next);
      CheckMatchesRuns(next, run + 1, tail);
      assert Expected(next, run + 1) == Expected(st, run);
    } else {
      assert Step(st, Broken).None?;
      RunHead(run + 1, tail);
      if st.current.Some? {
        assert run > 0;
      }
    }
  }

  /** An operational spring closes the run under way, which must then be
      exactly the group, or it follows another operational spring. */
  lemma {:induction false} CheckOperational(st: Scan, run: nat, states: seq<Spring>)
    requires Consistent(st, run) && states != [] && states[0] == Operational && Known(states[1..])
    ensures CheckFrom(st, states) == (RunsFrom(run, states) == Expected(st, run))
    decreases |states|, 0
  {
    var tail := states[1..];
    if st.last == Some(Broken) {
      assert RunsFrom(run, states) == [run] + RunsFrom(0, tail);
      if st.current == Some(0) {
        var next := Scan(Some(Operational), Next(st.rest).0, Next(st.rest).1);
        assert Step(st, Operational) == Some(next);
        CheckMatchesRuns(next, 0, tail);
        if st.rest != [] {
          assert st.rest == [st.rest[0]] + st.rest[1..];
        }
        assert Expected(next, 0) == st.rest;
        ConsEq(run, RunsFrom(0, tail), st.rest);
      } else {
        assert Step(st, Operational).None?;
        assert Expected(st, run)[0] != run;
      }
    } else {
      assert st.last.None? || st.last.value == Operational;
      assert run == 0;
      assert RunsFrom(run, states) == RunsFrom(0, tail);
      var next := Scan(Some(Operational), st.current, st.rest);
      assert Step(st, Operational) == Some(next);
      CheckMatchesRuns(next, 0, tail);
    }
  }

  /** For positive groups, an assignment is accepted exactly when the runs
      of broken springs it produces are the groups, in order. */
  lemma {:induction false} CheckIsRuns(row: seq<Spring>, groups: seq<nat>, a: nat)
    requires Positive(groups)
    ensures CheckFrom(Start(groups), Assign(row, a)) == (Runs(Assign(row, a)) == groups)
  {
    var st := Start(groups);
    if groups != [] {
      assert forall i :: 0 <= i < |groups| - 1 ==> groups[1..][i] == groups[i + 1];
      assert groups == [groups[0]] + groups[1..];
    }
    assert Known(Assign(row, a));
    CheckMatchesRuns(st, 0, Assign(row, a));
  }

  /** The spring the row holds at `i` once the unknowns are decided, bit
      `k` going to it if it is unknown. */
  function Decided(s: Spring, a: nat, k: nat): Spring
  {
    if s != Unknown then s else if Bit(a, k) then Broken else Operational
  }

  lemma AssignStep(row: seq<Spring>, a: nat, k: nat, i: nat)
    requires i < |row|
    ensures AssignFrom(row[i..], a, k)
      == [Decided(row[i], a, k)] + AssignFrom(row[i + 1..], a, if row[i] == Unknown then k + 1 else k)
  {
    assert row[i..][0] == row[i];
    assert row[i..][1..] == row[i + 1..];
  }

  lemma CheckStep(st: Scan, s: Spring, tail: seq<Spring>)
    ensures CheckFrom(st, [s] + tail) == (Step(st, s).Some? && CheckFrom(Step(st, s).value, tail))
  {
    assert ([s] + tail)[0] == s;
    assert ([s] + tail)[1..] == tail;
  }

  /** The closure `get_next_unknown`: bit `unknown` of `a` decides the next
      unknown spring, and the count of unknowns seen moves on. */
  method NextUnknown(a: nat, unknown: nat) returns (spring: Spring, seen: nat)
    ensures spring == Decided(Unknown, a, unknown) && spring != Unknown
    ensures seen == unknown + 1
  {
    spring := if (a / Pow2(unknown)) % 2 == 1 then Broken else Operational;
    seen := unknown + 1;
  }

  /** The loop's `match` on one decided spring: the new group state, or
      `None` where the check gives up. */
  method Advance(st: Scan, spring: Spring) returns (next: Option<Scan>)
    ensures next == Step(st, spring)
    ensures next.Some? ==> next.value.last == Some(spring)
  {
    var current, rest := st.current, st.rest;
    if spring == Broken && current.Some? && current.value > 0 {
      current := Some(current.value - 1);
    } else if spring == Operational && st.last.None? {
    } else if spring == Operational && st.last == Some(Broken) && current == Some(0) {
      current, rest := Next(rest).0, Next(rest).1;
    } else if spring == Operational && st.last == Some(Operational) {
    } else {
      return None;
    }
    return Some(Scan(Some(spring), current, rest));
  }

  /** `check_valid_assignment`: one pass over the row, taking a fresh bit of
      `a` for every unknown spring. Shifting a `u64` by 64 or more is a
      panic, so the row may hold at most 64 unknown springs. */
  method CheckValid(row: seq<Spring>, groups: seq<nat>, a: nat) returns (ok: bool)
    requires Unknowns(row) <= 64
    ensures ok == CheckFrom(Start(groups), Assign(row, a))
  {
    var st := Start(groups);
    var unknown: nat := 0;
    for i := 0 to |row|
      invariant CheckFrom(st, AssignFrom(row[i..], a, unknown)) == CheckFrom(Start(groups), Assign(row, a))
    {
      AssignStep(row, a, unknown, i);
      var spring := row[i];
      if row[i] == Unknown {
        spring, unknown := NextUnknown(a, unknown);
      }
      CheckStep(st, spring, AssignFrom(row[i + 1..], a, unknown));
      var next := Advance(st, spring);
      if next.None? {
        return false;
      }
      st := next.value;
    }
    if st.current == Some(0) {
      st := st.(current := Next(st.rest).0, rest := Next(st.rest).1);
    }
    return st.current.None?;
  }
}
