/** Day 12, counting: every number below `2^k`, `k` the count of unknown
    springs, is tried as a filling of the row, and the accepted ones are
    counted. */
module Day12Count {
  import opened Common
  import opened Day12

  /** `f` is a way to fill `row`: known springs kept, unknown ones decided. */
  predicate Fills(row: seq<Spring>, f: seq<Spring>)
  {
    |f| == |row| && forall i :: 0 <= i < |row| ==> f[i] != Unknown && (row[i] != Unknown ==> f[i] == row[i])
  }

  lemma FillsCons(row: seq<Spring>, f: seq<Spring>)
    requires row != [] && |f| == |row|
    ensures Fills(row, f) <==> f[0] != Unknown && (row[0] != Unknown ==> f[0] == row[0]) && Fills(row[1..], f[1..])
  {
    if f[0] != Unknown && (row[0] != Unknown ==> f[0] == row[0]) && Fills(row[1..], f[1..]) {
      forall i | 0 <= i < |row|
        ensures f[i] != Unknown && (row[i] != Unknown ==> f[i] == row[i])
      {
        if i > 0 {
          assert f[i] == f[1..][i - 1] && row[i] == row[1..][i - 1];
        }
      }
    }
  }

  /** The number whose bits, lowest first, say which unknown springs `f`
      makes broken. */
  function Encode(row: seq<Spring>, f: seq<Spring>): nat
    requires |f| == |row|
    decreases |row|
  {
    if row == [] then 0
    else if row[0] == Unknown then (if f[0] == Broken then 1 else 0) + 2 * Encode(row[1..], f[1..])
    else Encode(row[1..], f[1..])
  }

  lemma {:induction false} AssignFills(row: seq<Spring>, a: nat)
    ensures Fills(row, Assign(row, a))
    decreases |row|
  {
    if row != [] {
      AssignCons(row, a);
      var f := Assign(row, a);
      AssignFills(row[1..], if row[0] == Unknown then a / 2 else a);
      assert f[1..] == Assign(row[1..], if row[0] == Unknown then a / 2 else a);
      FillsCons(row, f);
    }
  }

  /** Each number below `2^k` is the code of the filling it makes. */
  lemma {:induction false} EncodeAssign(row: seq<Spring>, a: nat)
    requires a < Pow2(Unknowns(row))
    ensures Encode(row, Assign(row, a)) == a
    decreases |row|
  {
    if row != [] {
      UnknownsCons(row);
      AssignCons(row, a);
      var f := Assign(row, a);
      if row[0] == Unknown {
        assert f[1..] == Assign(row[1..], a / 2);
        EncodeAssign(row[1..], a / 2);
      } else {
        assert f[1..] == Assign(row[1..], a);
        EncodeAssign(row[1..], a);
      }
    }
  }

  /** Every filling is made by its code, which lies below `2^k`. */
  lemma {:induction false} AssignEncode(row: seq<Spring>, f: seq<Spring>)
    requires Fills(row, f)
    ensures Encode(row, f) < Pow2(Unknowns(row)) && Assign(row, Encode(row, f)) == f
    decreases |row|
  {
    if row != [] {
      UnknownsCons(row);
      FillsCons(row, f);
      AssignEncode(row[1..], f[1..]);
      var e := Encode(row, f);
      AssignCons(row, e);
      if row[0] == Unknown {
        var bit := if f[0] == Broken then 1 else 0;
        DivUnique(e, 2, Encode(row[1..], f[1..]), bit);
      }
      assert f == [f[0]] + f[1..];
    }
  }

  /** The numbers below `n` whose filling has the groups as its runs. */
  function AcceptedBelow(row: seq<Spring>, groups: seq<nat>, n: nat): set<nat>
  {
    set a: nat | a < n && Arranged(row, groups, a)
  }

  predicate Arranged(row: seq<Spring>, groups: seq<nat>, a: nat)
  {
    Runs(Assign(row, a)) == groups
  }

  lemma AcceptedStep(row: seq<Spring>, groups: seq<nat>, n: nat)
    requires n > 0
    ensures AcceptedBelow(row, groups, n)
      == AcceptedBelow(row, groups, n - 1) + (if Arranged(row, groups, n - 1) then {n - 1} else {})
  {
  }

  /** The number of `a < n` that `check_valid_assignment` accepts. */
  function Count(row: seq<Spring>, groups: seq<nat>, n: nat): (c: nat)
    ensures c <= n
  {
    if n == 0 then 0
    else Count(row, groups, n - 1) + (if CheckFrom(Start(groups), Assign(row, n - 1)) then 1 else 0)
  }

  lemma {:induction false} CountAccepted(row: seq<Spring>, groups: seq<nat>, n: nat)
    requires Positive(groups)
    ensures Count(row, groups, n) == |AcceptedBelow(row, groups, n)|
  {
    if n > 0 {
      CountAccepted(row, groups, n - 1);
      CheckIsRuns(row, groups, n - 1);
      AcceptedStep(row, groups, n);
      assert n - 1 !in AcceptedBelow(row, groups, n - 1);
    }
  }

  /** The fillings made by the numbers in `s`. */
  function Made(row: seq<Spring>, s: set<nat>): set<seq<Spring>>
  {
    set a | a in s :: Assign(row, a)
  }

  /** Different numbers below `2^k` make different fillings. */
  lemma {:induction false} MadeCard(row: seq<Spring>, s: set<nat>)
    requires forall a :: a in s ==> a < Pow2(Unknowns(row))
    ensures |Made(row, s)| == |s|
    decreases s
  {
    if s != {} {
      var x :| x in s;
      var rest := s - {x};
      MadeCard(row, rest);
      assert Made(row, s) == Made(row, rest) + {Assign(row, x)};
      if Assign(row, x) in Made(row, rest) {
        var y :| y in rest && Assign(row, y) == Assign(row, x);
        EncodeAssign(row, x);
        EncodeAssign(row, y);
      }
    }
  }

  /** The arrangements of the row: the fillings whose runs of broken
      springs are the groups. */
  function Arrangements(row: seq<Spring>, groups: seq<nat>): set<seq<Spring>>
  {
    Made(row, AcceptedBelow(row, groups, Pow2(Unknowns(row))))
  }

  lemma {:induction false} ArrangementsAre(row: seq<Spring>, groups: seq<nat>, f: seq<Spring>)
    ensures f in Arrangements(row, groups) <==> Fills(row, f) && Runs(f) == groups
  {
    if f in Arrangements(row, groups) {
      var a :| a in AcceptedBelow(row, groups, Pow2(Unknowns(row))) && Assign(row, a) == f;
      AssignFills(row, a);
    }
    if Fills(row, f) && Runs(f) == groups {
      AssignEncode(row, f);
      assert Arranged(row, groups, Encode(row, f));
      assert Encode(row, f) in AcceptedBelow(row, groups, Pow2(Unknowns(row)));
    }
  }

  /** With positive groups, the brute-force count is the number of
      arrangements of the row. */
  lemma {:induction false} CountIsArrangements(row: seq<Spring>, groups: seq<nat>)
    requires Positive(groups)
    ensures Count(row, groups, Pow2(Unknowns(row))) == |Arrangements(row, groups)|
  {
    var s := AcceptedBelow(row, groups, Pow2(Unknowns(row)));
    CountAccepted(row, groups, Pow2(Unknowns(row)));
    MadeCard(row, s);
  }

  /** `brute_force_row`: the range `0..1 << k` is `u64`, so `k` must stay
      below 64. */
  method BruteForceRow(row: seq<Spring>, groups: seq<nat>) returns (count: nat)
    requires Unknowns(row) < 64
    ensures count == Count(row, groups, Pow2(Unknowns(row)))
  {
    var n := Pow2(Unknowns(row));
    count := 0;
    for a := 0 to n
      invariant count == Count(row, groups, a)
    {
      var ok := CheckValid(row, groups, a);
      if ok {
        count := count + 1;
      }
    }
  }
}
