/** Day 22: what `check_gravity` computes. For each (column, position)
    entry of a brick the column vector is scanned from the position for the
    first brick that is neither the brick itself nor the filtered one; the
    gap down to it is a candidate, and the result is the smallest candidate,
    or the height above the floor when no column has a brick below. A
    failed `unwrap`, index, `assert!` or `usize` underflow is a panic,
    `None` here. */
module Day22Gravity {
  import opened Common
  import opened Day22

  /** The outcome of one column: nothing below, a gap, or a panic. */
  datatype Scan = Clear | Gap(d: nat) | Panic

  /** A brick the scan stops at: not the brick itself, not the filter. */
  predicate Other(o: nat, idx: nat, filter: Option<nat>)
  {
    o != idx && filter != Some(o)
  }

  /** The first position from `from` on holding another brick. */
  function FirstOther(vec: seq<nat>, from: nat, idx: nat, filter: Option<nat>): (r: Option<nat>)
    requires from <= |vec|
    ensures r.Some? ==> from <= r.value < |vec| && Other(vec[r.value], idx, filter) &&
                        forall k :: from <= k < r.value ==> !Other(vec[k], idx, filter)
    ensures r.None? ==> forall k :: from <= k < |vec| ==> !Other(vec[k], idx, filter)
    decreases |vec| - from
  {
    if from == |vec| then None
    else if Other(vec[from], idx, filter) then Some(from)
    else FirstOther(vec, from + 1, idx, filter)
  }

  /** The gap from brick `idx` down to brick `other`, with the two
      `assert!`s and the `usize` subtraction. */
  function Distance(bricks: seq<Brick>, idx: nat, other: nat): (r: Scan)
    requires idx < |bricks|
    ensures !r.Clear?
    ensures r.Gap? <==> other < |bricks| && bricks[idx].start.2 <= bricks[idx].end.2 &&
                        bricks[other].start.2 < bricks[idx].start.2 && bricks[other].end.2 < bricks[idx].start.2
    ensures r.Gap? ==> bricks[other].end.2 + r.d + 1 == bricks[idx].start.2
  {
    if other >= |bricks| then Panic
    else
      var b, o := bricks[idx], bricks[other];
      if !(b.start.2 <= b.end.2) || !(o.start.2 < b.start.2) || o.end.2 + 1 > b.start.2 then Panic
      else Gap(b.start.2 - o.end.2 - 1)
  }

  /** One (column, position) entry of brick `idx`. */
  function ColumnScan(bricks: seq<Brick>, columnVectors: map<Column, seq<nat>>, idx: nat, filter: Option<nat>,
                      entry: (Column, nat)): Scan
    requires idx < |bricks|
  {
    if entry.0 !in columnVectors then Panic
    else
      var vec := columnVectors[entry.0];
      if entry.1 > |vec| then Panic
      else
        match FirstOther(vec, entry.1, idx, filter)
        case None => Clear
        case Some(k) => Distance(bricks, idx, vec[k])
  }

  /** Folding in one more column: a panic stays a panic, and of two gaps
      the smaller is kept. */
  function Combine(acc: Scan, s: Scan): Scan
  {
    if acc.Panic? || s.Panic? then Panic
    else if acc.Clear? then s
    else if s.Clear? then acc
    else if s.d < acc.d then s
    else acc
  }

  /** The outcome of the first `n` entries, folded from the first. */
  function Scans(bricks: seq<Brick>, columnVectors: map<Column, seq<nat>>, idx: nat, filter: Option<nat>,
                 entries: seq<(Column, nat)>, n: nat): Scan
    requires idx < |bricks| && n <= |entries|
  {
    if n == 0 then Clear
    else Combine(Scans(bricks, columnVectors, idx, filter, entries, n - 1),
                 ColumnScan(bricks, columnVectors, idx, filter, entries[n - 1]))
  }

  /** The fold is a panic if any column panics, else the smallest gap of
      any column, else clear. */
  lemma {:induction false} ScansMeaning(bricks: seq<Brick>, columnVectors: map<Column, seq<nat>>, idx: nat,
                                        filter: Option<nat>, entries: seq<(Column, nat)>, n: nat)
    requires idx < |bricks| && n <= |entries|
    ensures var r := Scans(bricks, columnVectors, idx, filter, entries, n);
            (r.Panic? <==> exists j :: 0 <= j < n && ColumnScan(bricks, columnVectors, idx, filter, entries[j]).Panic?) &&
            (r.Clear? <==> forall j :: 0 <= j < n ==> ColumnScan(bricks, columnVectors, idx, filter, entries[j]).Clear?) &&
            (r.Gap? ==> exists j :: 0 <= j < n && ColumnScan(bricks, columnVectors, idx, filter, entries[j]) == r) &&
            (r.Gap? ==> forall j :: 0 <= j < n && ColumnScan(bricks, columnVectors, idx, filter, entries[j]).Gap? ==>
                                    r.d <= ColumnScan(bricks, columnVectors, idx, filter, entries[j]).d)
  {
    if n > 0 {
      ScansMeaning(bricks, columnVectors, idx, filter, entries, n - 1);
    }
  }

  /** `check_gravity(idx, filter)`: how far brick `idx` can fall, or `None`
      where the source panics. The fallback `start.z - 1` is evaluated
      eagerly, so a brick at z = 0 always panics. */
  function Gravity(bricks: seq<Brick>, columnIdxs: map<nat, seq<(Column, nat)>>, columnVectors: map<Column, seq<nat>>,
                   idx: nat, filter: Option<nat>): (r: Option<nat>)
    ensures r.Some? ==> idx < |bricks| && r.value < bricks[idx].start.2
  {
    if idx >= |bricks| || idx !in columnIdxs then None
    else
      var s := Scans(bricks, columnVectors, idx, filter, columnIdxs[idx], |columnIdxs[idx]|);
      ScansMeaning(bricks, columnVectors, idx, filter, columnIdxs[idx], |columnIdxs[idx]|);
      if s.Panic? || bricks[idx].start.2 == 0 then None
      else if s.Clear? then Some(bricks[idx].start.2 - 1)
      else Some(s.d)
  }

  /** The fall is the smallest gap over the brick's columns: no column
      allows less, and some column allows exactly that, unless no column
      has a brick below and the brick falls to height 1. */
  lemma {:induction false} GravityMinimal(bricks: seq<Brick>, columnIdxs: map<nat, seq<(Column, nat)>>,
                                          columnVectors: map<Column, seq<nat>>, idx: nat, filter: Option<nat>)
    requires Gravity(bricks, columnIdxs, columnVectors, idx, filter).Some?
    ensures var d := Gravity(bricks, columnIdxs, columnVectors, idx, filter).value;
            idx in columnIdxs &&
            (forall e :: e in columnIdxs[idx] ==> !ColumnScan(bricks, columnVectors, idx, filter, e).Panic?) &&
            (forall e :: e in columnIdxs[idx] && ColumnScan(bricks, columnVectors, idx, filter, e).Gap? ==>
               d <= ColumnScan(bricks, columnVectors, idx, filter, e).d) &&
            ((exists e :: e in columnIdxs[idx] && ColumnScan(bricks, columnVectors, idx, filter, e) == Gap(d)) ||
             ((forall e :: e in columnIdxs[idx] ==> ColumnScan(bricks, columnVectors, idx, filter, e).Clear?) &&
              d + 1 == bricks[idx].start.2))
  {
    var entries := columnIdxs[idx];
    var s := Scans(bricks, columnVectors, idx, filter, entries, |entries|);
    ScansMeaning(bricks, columnVectors, idx, filter, entries, |entries|);
    forall e | e in entries
      ensures !ColumnScan(bricks, columnVectors, idx, filter, e).Panic?
      ensures ColumnScan(bricks, columnVectors, idx, filter, e).Gap? && s.Gap? ==>
              s.d <= ColumnScan(bricks, columnVectors, idx, filter, e).d
      ensures s.Clear? ==> ColumnScan(bricks, columnVectors, idx, filter, e).Clear?
    {
      var j :| 0 <= j < |entries| && entries[j] == e;
    }
    if s.Gap? {
      var j :| 0 <= j < |entries| && ColumnScan(bricks, columnVectors, idx, filter, entries[j]) == s;
      assert entries[j] in entries;
    }
  }

  /** `check_gravity` panics exactly when the brick is missing, some column
      panics, or the brick sits at z = 0. */
  lemma {:induction false} GravityPanics(bricks: seq<Brick>, columnIdxs: map<nat, seq<(Column, nat)>>,
                                         columnVectors: map<Column, seq<nat>>, idx: nat, filter: Option<nat>)
    ensures Gravity(bricks, columnIdxs, columnVectors, idx, filter).None? <==>
            idx >= |bricks| || idx !in columnIdxs || bricks[idx].start.2 == 0 ||
            exists e :: e in columnIdxs[idx] && ColumnScan(bricks, columnVectors, idx, filter, e).Panic?
  {
    if idx < |bricks| && idx in columnIdxs {
      var entries := columnIdxs[idx];
      ScansMeaning(bricks, columnVectors, idx, filter, entries, |entries|);
      if exists e :: e in entries && ColumnScan(bricks, columnVectors, idx, filter, e).Panic? {
        var e :| e in entries && ColumnScan(bricks, columnVectors, idx, filter, e).Panic?;
        var j :| 0 <= j < |entries| && entries[j] == e;
      }
    }
  }

  /** The scanning loop of `check_gravity` over one column vector: the
      first position from `from` on holding another brick. */
  method NextBelow(vec: seq<nat>, from: nat, idx: nat, filter: Option<nat>) returns (r: Option<nat>)
    requires from <= |vec|
    ensures r == FirstOther(vec, from, idx, filter)
  {
    var k := from;
    while k < |vec|
      invariant from <= k <= |vec|
      invariant FirstOther(vec, from, idx, filter) == FirstOther(vec, k, idx, filter)
    {
      var other := vec[k];
      if idx != other && Some(other) != filter {
        return Some(k);
      }
      k := k + 1;
    }
    return None;
  }
}
