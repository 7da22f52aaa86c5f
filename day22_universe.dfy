/** Day 22: the universe of bricks with its column tables, and the three
    passes over it: settling, counting the bricks that can go, and counting
    what falls when each brick goes. */
module Day22Universe {
  import opened Common
  import opened Day22
  import opened Day22Columns
  import opened Day22Gravity

  /** The tables of `Universe::new`: `column_idxs` lists, for each brick,
      exactly the (column, position) pairs where its index sits in a column
      vector, and lists nothing empty. */
  ghost predicate Indexed(columnIdxs: map<nat, seq<(Column, nat)>>, columnVectors: map<Column, seq<nat>>)
  {
    (forall i :: i in columnIdxs ==> columnIdxs[i] != []) &&
    (forall i: nat, e: (Column, nat) :: i in columnIdxs && e in columnIdxs[i] <==>
       e.0 in columnVectors && e.1 < |columnVectors[e.0]| && columnVectors[e.0][e.1] == i)
  }

  /** Placing a new column's list keeps the tables consistent. */
  lemma {:induction false} IndexedStep(idxs: map<nat, seq<(Column, nat)>>, vectors: map<Column, seq<nat>>,
                                       placed: map<nat, seq<(Column, nat)>>, col: Column, v: seq<(nat, nat)>)
    requires Indexed(idxs, vectors) && col !in vectors
    requires forall i :: i in placed && placed[i] == [] ==> i in idxs && idxs[i] == []
    requires forall i: nat, e: (Column, nat) :: i in placed && e in placed[i] <==>
               (i in idxs && e in idxs[i]) || (e.0 == col && e.1 < |v| && v[e.1].1 == i)
    ensures Indexed(placed, vectors[col := Ids(v)])
  {
    var after := vectors[col := Ids(v)];
    forall i: nat, e: (Column, nat)
      ensures i in placed && e in placed[i] <==> e.0 in after && e.1 < |after[e.0]| && after[e.0][e.1] == i
    {
      if e.0 == col {
        assert !(i in idxs && e in idxs[i]);
      }
    }
  }

  /** An order `get_cubes_by_z` may return: one entry per brick, with its
      bottom and top z, in ascending bottom z; ties in any order, as
      `sorted_unstable_by_key` leaves them. */
  ghost predicate ZOrder(bricks: seq<Brick>, order: seq<(nat, nat, nat)>)
  {
    |order| == |bricks| && SortedBy(order, BottomZ) &&
    forall e: (nat, nat, nat) :: e in order <==> e.0 < |bricks| && e.1 == bricks[e.0].start.2 && e.2 == bricks[e.0].end.2
  }

  /** The model's own sort is one such order. */
  lemma {:induction false} ByZOrder(bricks: seq<Brick>)
    ensures ZOrder(bricks, ByZ(bricks))
  {
    ByZEntries(bricks);
  }

  /** Brick `b` lowered by `d`: `start.2 -= d; end.2 -= d`. */
  function Lower(b: Brick, d: nat): (r: Brick)
    requires d <= b.start.2 && d <= b.end.2
    ensures Lowered(b, r)
  {
    Brick((b.start.0, b.start.1, b.start.2 - d), (b.end.0, b.end.1, b.end.2 - d))
  }

  /** `after` is `before` moved straight down, or left where it was. */
  ghost predicate Lowered(before: Brick, after: Brick)
  {
    after.start.0 == before.start.0 && after.start.1 == before.start.1 &&
    after.end.0 == before.end.0 && after.end.1 == before.end.1 &&
    after.start.2 <= before.start.2 &&
    before.start.2 - after.start.2 == before.end.2 - after.end.2
  }

  /** One step of `settle`: brick `idx` drops by its gravity if that is
      positive; an `end.2` below the drop underflows. */
  function SettleOne(bricks: seq<Brick>, columnIdxs: map<nat, seq<(Column, nat)>>, columnVectors: map<Column, seq<nat>>,
                     idx: nat): Option<seq<Brick>>
  {
    match Gravity(bricks, columnIdxs, columnVectors, idx, None)
    case None => None
    case Some(d) =>
      if d == 0 then Some(bricks)
      else if bricks[idx].end.2 < d then None
      else Some(bricks[idx := Lower(bricks[idx], d)])
  }

  /** `settle` from entry `j` of the order on. */
  function SettleFrom(bricks: seq<Brick>, columnIdxs: map<nat, seq<(Column, nat)>>, columnVectors: map<Column, seq<nat>>,
                      order: seq<(nat, nat, nat)>, j: nat): Option<seq<Brick>>
    requires j <= |order|
    decreases |order| - j
  {
    if j == |order| then Some(bricks)
    else
      match SettleOne(bricks, columnIdxs, columnVectors, order[j].0)
      case None => None
      case Some(next) => SettleFrom(next, columnIdxs, columnVectors, order, j + 1)
  }

  /** Settling only moves bricks straight down and keeps their heights. */
  lemma {:induction false} SettleLowers(bricks: seq<Brick>, columnIdxs: map<nat, seq<(Column, nat)>>,
                                        columnVectors: map<Column, seq<nat>>, order: seq<(nat, nat, nat)>, j: nat)
    requires j <= |order|
    requires SettleFrom(bricks, columnIdxs, columnVectors, order, j).Some?
    ensures var settled := SettleFrom(bricks, columnIdxs, columnVectors, order, j).value;
            |settled| == |bricks| && forall i :: 0 <= i < |bricks| ==> Lowered(bricks[i], settled[i])
    decreases |order| - j
  {
    if j < |order| {
      var next := SettleOne(bricks, columnIdxs, columnVectors, order[j].0).value;
      SettleLowers(next, columnIdxs, columnVectors, order, j + 1);
    }
  }

  /** Every brick the order visits ends at height 1 or more, and a brick
      already there stays there. */
  lemma {:induction false} SettleGrounded(bricks: seq<Brick>, columnIdxs: map<nat, seq<(Column, nat)>>,
                                          columnVectors: map<Column, seq<nat>>, order: seq<(nat, nat, nat)>, j: nat, i: nat)
    requires j <= |order| && i < |bricks|
    requires SettleFrom(bricks, columnIdxs, columnVectors, order, j).Some?
    requires bricks[i].start.2 >= 1 || exists k :: j <= k < |order| && order[k].0 == i
    ensures |SettleFrom(bricks, columnIdxs, columnVectors, order, j).value| == |bricks|
    ensures SettleFrom(bricks, columnIdxs, columnVectors, order, j).value[i].start.2 >= 1
    decreases |order| - j
  {
    SettleLowers(bricks, columnIdxs, columnVectors, order, j);
    if j < |order| {
      var idx := order[j].0;
      var d := Gravity(bricks, columnIdxs, columnVectors, idx, None).value;
      var next := SettleOne(bricks, columnIdxs, columnVectors, idx).value;
      assert |next| == |bricks|;
      if i == idx {
        assert next[i].start.2 >= 1;
      } else if bricks[i].start.2 < 1 {
        var k :| j <= k < |order| && order[k].0 == i;
        assert k != j;
      }
      SettleGrounded(next, columnIdxs, columnVectors, order, j + 1, i);
    }
  }

  /** Brick `order[j]` is scanned for the removal of `order[s]`: no brick
      before it in the scan started above the window. */
  ghost predicate Scanned(order: seq<(nat, nat, nat)>, s: nat, j: nat, k: nat)
    requires s < |order|
  {
    j <= k < |order| && forall m :: j <= m < k ==> order[m].1 <= order[s].2 + 1
  }

  /** With `order[s]` removed, brick `idx` would fall. */
  ghost predicate Falls(bricks: seq<Brick>, columnIdxs: map<nat, seq<(Column, nat)>>, columnVectors: map<Column, seq<nat>>,
                        idx: nat, removed: nat)
  {
    Gravity(bricks, columnIdxs, columnVectors, idx, Some(removed)).Some? &&
    Gravity(bricks, columnIdxs, columnVectors, idx, Some(removed)).value > 0
  }

  /** The inner loop of `non_critical_1` from entry `j` on: whether a
      brick falls without `order[s]`. Gravity is checked before the test
      that ends the window, so the first brick past the window counts. */
  function CriticalFrom(bricks: seq<Brick>, columnIdxs: map<nat, seq<(Column, nat)>>, columnVectors: map<Column, seq<nat>>,
                        order: seq<(nat, nat, nat)>, s: nat, j: nat): Option<bool>
    requires s < |order| && j <= |order|
    decreases |order| - j
  {
    if j == |order| then Some(false)
    else
      match Gravity(bricks, columnIdxs, columnVectors, order[j].0, Some(order[s].0))
      case None => None
      case Some(g) =>
        if order[s].2 + 1 < order[j].1 then Some(g > 0)
        else
          match CriticalFrom(bricks, columnIdxs, columnVectors, order, s, j + 1)
          case None => None
          case Some(c) => Some(g > 0 || c)
  }

  /** `critical` is set exactly when some scanned brick would fall, and
      every scanned brick's gravity is defined. */
  lemma {:induction false} CriticalMeaning(bricks: seq<Brick>, columnIdxs: map<nat, seq<(Column, nat)>>,
                                           columnVectors: map<Column, seq<nat>>, order: seq<(nat, nat, nat)>, s: nat, j: nat)
    requires s < |order| && j <= |order|
    requires CriticalFrom(bricks, columnIdxs, columnVectors, order, s, j).Some?
    ensures forall k: nat :: Scanned(order, s, j, k) ==> Gravity(bricks, columnIdxs, columnVectors, order[k].0, Some(order[s].0)).Some?
    ensures CriticalFrom(bricks, columnIdxs, columnVectors, order, s, j).value <==>
            exists k: nat :: Scanned(order, s, j, k) && Falls(bricks, columnIdxs, columnVectors, order[k].0, order[s].0)
    decreases |order| - j
  {
    if j < |order| {
      var falls := Falls(bricks, columnIdxs, columnVectors, order[j].0, order[s].0);
      assert Scanned(order, s, j, j);
      if order[s].2 + 1 < order[j].1 {
        forall k: nat | Scanned(order, s, j, k)
          ensures k == j
        {
        }
      } else {
        CriticalMeaning(bricks, columnIdxs, columnVectors, order, s, j + 1);
        forall k: nat | Scanned(order, s, j, k) && k != j
          ensures Scanned(order, s, j + 1, k)
        {
        }
        forall k: nat | Scanned(order, s, j + 1, k)
          ensures Scanned(order, s, j, k)
        {
        }
      }
    }
  }

  /** Adding `c` to an outcome that may be a panic. */
  function AddOpt(c: nat, o: Option<nat>): Option<nat>
  {
    match o
    case None => None
    case Some(m) => Some(c + m)
  }

  /** `non_critical_1` from entry `s` on: the bricks whose removal makes
      nothing fall. */
  function CountFrom(bricks: seq<Brick>, columnIdxs: map<nat, seq<(Column, nat)>>, columnVectors: map<Column, seq<nat>>,
                     order: seq<(nat, nat, nat)>, s: nat): Option<nat>
    requires s <= |order|
    decreases |order| - s
  {
    if s == |order| then Some(0)
    else
      match CriticalFrom(bricks, columnIdxs, columnVectors, order, s, s + 1)
      case None => None
      case Some(c) => AddOpt(if c then 0 else 1, CountFrom(bricks, columnIdxs, columnVectors, order, s + 1))
  }

  /** At most every brick after `s` in the order is counted. */
  lemma {:induction false} CountBound(bricks: seq<Brick>, columnIdxs: map<nat, seq<(Column, nat)>>,
                                      columnVectors: map<Column, seq<nat>>, order: seq<(nat, nat, nat)>, s: nat)
    requires s <= |order|
    requires CountFrom(bricks, columnIdxs, columnVectors, order, s).Some?
    ensures CountFrom(bricks, columnIdxs, columnVectors, order, s).value <= |order| - s
    decreases |order| - s
  {
    if s < |order| {
      CountBound(bricks, columnIdxs, columnVectors, order, s + 1);
    }
  }

  /** The inner loop of `non_critical_2` on the clone from entry `j` on,
      `lastZ` being the highest top seen: the number of bricks that fall.
      The window test comes first here, and a brick that falls raises the
      window to its top. */
  function ChainFrom(bricks: seq<Brick>, columnIdxs: map<nat, seq<(Column, nat)>>, columnVectors: map<Column, seq<nat>>,
                     order: seq<(nat, nat, nat)>, removed: nat, j: nat, lastZ: nat): Option<nat>
    requires j <= |order|
    decreases |order| - j
  {
    if j == |order| || lastZ + 1 < order[j].1 then Some(0)
    else
      var idx := order[j].0;
      match Gravity(bricks, columnIdxs, columnVectors, idx, Some(removed))
      case None => None
      case Some(d) =>
        if d == 0 then ChainFrom(bricks, columnIdxs, columnVectors, order, removed, j + 1, lastZ)
        else if bricks[idx].end.2 < d then None
        else
          var top := if order[j].2 > lastZ then order[j].2 else lastZ;
          AddOpt(1, ChainFrom(bricks[idx := Lower(bricks[idx], d)], columnIdxs, columnVectors, order, removed, j + 1, top))
  }

  /** One step of `ChainFrom` at a brick inside the window that falls by
      `d`: it is counted, lowered, and the window rises to its top. */
  lemma ChainFalls(bricks: seq<Brick>, columnIdxs: map<nat, seq<(Column, nat)>>, columnVectors: map<Column, seq<nat>>,
                   order: seq<(nat, nat, nat)>, removed: nat, j: nat, lastZ: nat, count: nat, d: nat)
    requires j < |order| && order[j].1 <= lastZ + 1
    requires Gravity(bricks, columnIdxs, columnVectors, order[j].0, Some(removed)) == Some(d)
    requires 0 < d <= bricks[order[j].0].end.2
    ensures var idx := order[j].0;
            var top := if order[j].2 > lastZ then order[j].2 else lastZ;
            AddOpt(count, ChainFrom(bricks, columnIdxs, columnVectors, order, removed, j, lastZ)) ==
            AddOpt(count + 1, ChainFrom(bricks[idx := Lower(bricks[idx], d)], columnIdxs, columnVectors, order, removed, j + 1, top))
  {
  }

  /** Each scanned brick falls at most once, so at most the bricks after
      `j` in the order are counted. */
  lemma {:induction false} ChainBound(bricks: seq<Brick>, columnIdxs: map<nat, seq<(Column, nat)>>,
                                      columnVectors: map<Column, seq<nat>>, order: seq<(nat, nat, nat)>,
                                      removed: nat, j: nat, lastZ: nat)
    requires j <= |order|
    requires ChainFrom(bricks, columnIdxs, columnVectors, order, removed, j, lastZ).Some?
    ensures ChainFrom(bricks, columnIdxs, columnVectors, order, removed, j, lastZ).value <= |order| - j
    decreases |order| - j
  {
    if j < |order| && order[j].1 <= lastZ + 1 {
      var idx := order[j].0;
      var d := Gravity(bricks, columnIdxs, columnVectors, idx, Some(removed)).value;
      if d == 0 {
        ChainBound(bricks, columnIdxs, columnVectors, order, removed, j + 1, lastZ);
      } else {
        var top := if order[j].2 > lastZ then order[j].2 else lastZ;
        ChainBound(bricks[idx := Lower(bricks[idx], d)], columnIdxs, columnVectors, order, removed, j + 1, top);
      }
    }
  }

  /** A brick `non_critical_1` counts as safe to remove makes no brick
      fall in `non_critical_2`. */
  lemma {:induction false} SafeMovesNothing(bricks: seq<Brick>, columnIdxs: map<nat, seq<(Column, nat)>>,
                                            columnVectors: map<Column, seq<nat>>, order: seq<(nat, nat, nat)>, s: nat, j: nat)
    requires s < |order| && j <= |order|
    requires CriticalFrom(bricks, columnIdxs, columnVectors, order, s, j) == Some(false)
    ensures ChainFrom(bricks, columnIdxs, columnVectors, order, order[s].0, j, order[s].2) == Some(0)
    decreases |order| - j
  {
    if j < |order| && order[j].1 <= order[s].2 + 1 {
      SafeMovesNothing(bricks, columnIdxs, columnVectors, order, s, j + 1);
    }
  }

  /** `non_critical_2` from entry `s` on: the falls summed over removals. */
  function TotalFrom(bricks: seq<Brick>, columnIdxs: map<nat, seq<(Column, nat)>>, columnVectors: map<Column, seq<nat>>,
                     order: seq<(nat, nat, nat)>, s: nat): Option<nat>
    requires s <= |order|
    decreases |order| - s
  {
    if s == |order| then Some(0)
    else
      match ChainFrom(bricks, columnIdxs, columnVectors, order, order[s].0, s + 1, order[s].2)
      case None => None
      case Some(m) => AddOpt(m, TotalFrom(bricks, columnIdxs, columnVectors, order, s + 1))
  }

  /** The second loop of `Universe::new`, over the columns in hash order:
      arrange each column's pairs with `arrange` (the sort and reverse),
      keep their indices as the column vector, and record every position. */
  method ColumnTables(raw: map<Column, seq<(nat, nat)>>, arrange: seq<(nat, nat)> -> seq<(nat, nat)>)
    returns (idxs: map<nat, seq<(Column, nat)>>, vectors: map<Column, seq<nat>>)
    ensures vectors.Keys == raw.Keys
    ensures forall col :: col in vectors ==> vectors[col] == Ids(arrange(raw[col]))
    ensures Indexed(idxs, vectors)
  {
    idxs, vectors := map[], map[];
    var todo := raw.Keys;
    while todo != {}
      invariant todo <= raw.Keys
      invariant vectors.Keys == raw.Keys - todo
      invariant forall col :: col in vectors ==> vectors[col] == Ids(arrange(raw[col]))
      invariant Indexed(idxs, vectors)
      decreases |todo|
    {
      var col :| col in todo;
      idxs, vectors := AddColumn(idxs, vectors, col, arrange(raw[col]));
      todo := todo - {col};
    }
  }

  /** One column of that loop: its pairs placed, its vector recorded. */
  method AddColumn(idxs: map<nat, seq<(Column, nat)>>, vectors: map<Column, seq<nat>>, col: Column, v: seq<(nat, nat)>)
    returns (idxs': map<nat, seq<(Column, nat)>>, vectors': map<Column, seq<nat>>)
    requires Indexed(idxs, vectors) && col !in vectors
    ensures vectors' == vectors[col := Ids(v)]
    ensures Indexed(idxs', vectors')
  {
    var ids;
    idxs', ids := PlaceColumn(idxs, col, v);
    IndexedStep(idxs, vectors, idxs', col, v);
    vectors' := vectors[col := ids];
  }

  class Universe {
    var bricks: seq<Brick>
    var columnIdxs: map<nat, seq<(Column, nat)>>
    var columnVectors: map<Column, seq<nat>>

    /** `Universe::new`: each occupied column's vector lists the indices of
        its (z, index) pairs in descending order, and `column_idxs` records
        every position of every brick. */
    constructor (bs: seq<Brick>)
      ensures bricks == bs
      ensures columnVectors.Keys == Raw(bs).Keys
      ensures forall col :: col in columnVectors ==> columnVectors[col] == Ids(Ordered(Raw(bs)[col], |bs|))
      ensures Indexed(columnIdxs, columnVectors)
    {
      var raw := RawIntersections(bs);
      var idxs, vectors := ColumnTables(raw, pairs => Ordered(pairs, |bs|));
      bricks, columnIdxs, columnVectors := bs, idxs, vectors;
    }

    /** `self.clone()`. */
    constructor Clone(from: Universe)
      ensures bricks == from.bricks && columnIdxs == from.columnIdxs && columnVectors == from.columnVectors
    {
      bricks, columnIdxs, columnVectors := from.bricks, from.columnIdxs, from.columnVectors;
    }

    /** `check_gravity(idx, filter)`. */
    method CheckGravity(idx: nat, filter: Option<nat>) returns (r: Option<nat>)
      ensures r == Gravity(bricks, columnIdxs, columnVectors, idx, filter)
    {
      if idx >= |bricks| || idx !in columnIdxs {
        return None;
      }
      var brick := bricks[idx];
      var entries := columnIdxs[idx];
      var minDistance: Option<nat> := None;
      for i := 0 to |entries|
        invariant Scans(bricks, columnVectors, idx, filter, entries, i) == (if minDistance.None? then Clear else Gap(minDistance.value))
      {
        var scan := ColumnDistance(idx, filter, entries[i]);
        if scan.Panic? {
          ScansMeaning(bricks, columnVectors, idx, filter, entries, |entries|);
          return None;
        }
        if scan.Gap? {
          var distance := scan.d;
          if minDistance.None? || distance < minDistance.value {
            minDistance := Some(distance);
          }
        }
      }
      assert entries[..|entries|] == entries;
      if brick.start.2 == 0 {
        return None;
      }
      r := if minDistance.None? then Some(brick.start.2 - 1) else minDistance;
    }

    /** The body of `check_gravity`'s loop for one (column, position)
        entry: the scan down the column vector up to the first other
        brick, then the two `assert!`s and the distance. */
    method ColumnDistance(idx: nat, filter: Option<nat>, entry: (Column, nat)) returns (scan: Scan)
      requires idx < |bricks|
      ensures scan == ColumnScan(bricks, columnVectors, idx, filter, entry)
    {
      var (col, pos) := entry;
      if col !in columnVectors || pos > |columnVectors[col]| {
        return Panic;
      }
      var vec := columnVectors[col];
      var below := NextBelow(vec, pos, idx, filter);
      if below.None? {
        return Clear;
      }
      var other := vec[below.value];
      var brick := bricks[idx];
      if other >= |bricks| || !(brick.start.2 <= brick.end.2) || !(bricks[other].start.2 < brick.start.2) ||
         bricks[other].end.2 + 1 > brick.start.2 {
        return Panic;
      }
      return Gap(brick.start.2 - bricks[other].end.2 - 1);
    }

    /** `settle`: each brick in the order drops by its gravity. Returns
        false where the source panics. */
    method Settle(order: seq<(nat, nat, nat)>) returns (ok: bool)
      requires ZOrder(bricks, order)
      modifies this
      ensures columnIdxs == old(columnIdxs) && columnVectors == old(columnVectors)
      ensures ok <==> SettleFrom(old(bricks), columnIdxs, columnVectors, order, 0).Some?
      ensures ok ==> bricks == SettleFrom(old(bricks), columnIdxs, columnVectors, order, 0).value
    {
      for j := 0 to |order|
        invariant columnIdxs == old(columnIdxs) && columnVectors == old(columnVectors)
        invariant SettleFrom(old(bricks), columnIdxs, columnVectors, order, 0) ==
                  SettleFrom(bricks, columnIdxs, columnVectors, order, j)
      {
        var idx := order[j].0;
        var distance := CheckGravity(idx, None);
        if distance.None? {
          return false;
        }
        if distance.value > 0 {
          if bricks[idx].end.2 < distance.value {
            return false;
          }
          bricks := bricks[idx := Lower(bricks[idx], distance.value)];
        }
      }
      return true;
    }

    /** The inner loop of `non_critical_1` for the removal of `order[s]`. */
    method Critical(order: seq<(nat, nat, nat)>, s: nat) returns (r: Option<bool>)
      requires s < |order|
      ensures r == CriticalFrom(bricks, columnIdxs, columnVectors, order, s, s + 1)
    {
      var critical := false;
      for j := s + 1 to |order|
        invariant CriticalFrom(bricks, columnIdxs, columnVectors, order, s, s + 1) ==
                  match CriticalFrom(bricks, columnIdxs, columnVectors, order, s, j)
                  case None => None
                  case Some(c) => Some(critical || c)
      {
        var gravity := CheckGravity(order[j].0, Some(order[s].0));
        if gravity.None? {
          return None;
        }
        if gravity.value > 0 {
          critical := true;
        }
        if order[s].2 + 1 < order[j].1 {
          return Some(critical);
        }
      }
      return Some(critical);
    }

    /** `non_critical_1`: the number of bricks whose removal makes no
        scanned brick fall; `None` where the source panics. */
    method NonCritical1(order: seq<(nat, nat, nat)>) returns (r: Option<nat>)
      ensures r == CountFrom(bricks, columnIdxs, columnVectors, order, 0)
    {
      var nonCritical: nat := 0;
      for s := 0 to |order|
        invariant CountFrom(bricks, columnIdxs, columnVectors, order, 0) ==
                  AddOpt(nonCritical, CountFrom(bricks, columnIdxs, columnVectors, order, s))
      {
        var critical := Critical(order, s);
        if critical.None? {
          return None;
        }
        if !critical.value {
          nonCritical := nonCritical + 1;
        }
      }
      return Some(nonCritical);
    }

    /** The inner loop of `non_critical_2`, run on a clone: drop every
        scanned brick that can fall without `order[s]` and count them. */
    method Chain(order: seq<(nat, nat, nat)>, s: nat) returns (moved: Option<nat>)
      requires s < |order|
      modifies this
      ensures columnIdxs == old(columnIdxs) && columnVectors == old(columnVectors)
      ensures moved == ChainFrom(old(bricks), columnIdxs, columnVectors, order, order[s].0, s + 1, order[s].2)
    {
      var removed, lastZ := order[s].0, order[s].2;
      var count: nat := 0;
      for j := s + 1 to |order|
        invariant columnIdxs == old(columnIdxs) && columnVectors == old(columnVectors)
        invariant ChainFrom(old(bricks), columnIdxs, columnVectors, order, removed, s + 1, order[s].2) ==
                  AddOpt(count, ChainFrom(bricks, columnIdxs, columnVectors, order, removed, j, lastZ))
      {
        var (idx, startZ, endZ) := order[j];
        if lastZ + 1 < startZ {
          return Some(count);
        }
        var distance := CheckGravity(idx, Some(removed));
        if distance.None? {
          return None;
        }
        if distance.value > 0 {
          if bricks[idx].end.2 < distance.value {
            return None;
          }
          ChainFalls(bricks, columnIdxs, columnVectors, order, removed, j, lastZ, count, distance.value);
          lastZ := if endZ > lastZ then endZ else lastZ;
          count := count + 1;
          bricks := bricks[idx := Lower(bricks[idx], distance.value)];
        }
      }
      return Some(count);
    }

    /** `non_critical_2`: for each removal, the number of bricks that fall
        in a fresh clone, summed; this universe is left as it was. */
    method NonCritical2(order: seq<(nat, nat, nat)>) returns (r: Option<nat>)
      ensures r == TotalFrom(bricks, columnIdxs, columnVectors, order, 0)
    {
      var totalMoved: nat := 0;
      for s := 0 to |order|
        invariant TotalFrom(bricks, columnIdxs, columnVectors, order, 0) ==
                  AddOpt(totalMoved, TotalFrom(bricks, columnIdxs, columnVectors, order, s))
      {
        var other := new Universe.Clone(this);
        var moved := other.Chain(order, s);
        if moved.None? {
          return None;
        }
        totalMoved := totalMoved + moved.value;
      }
      return Some(totalMoved);
    }
  }

  /** `input.lines().map(parse_cube)`: every line must parse, or the
      solution panics. */
  function ParseAll(lines: seq<string>): Option<seq<Brick>>
  {
    ParseEach(lines, ParseBrick)
  }

  /** Parse, build the universe and settle it; `None` where the source
      panics. */
  method Settled(input: string) returns (u: Universe?)
    ensures ParseAll(Lines(input)).None? ==> u == null
    ensures u != null ==> fresh(u) && |u.bricks| == |ParseAll(Lines(input)).value|
  {
    var parsed := ParseAll(Lines(input));
    if parsed.None? {
      return null;
    }
    u := new Universe(parsed.value);
    var order := ByZ(parsed.value);
    ByZOrder(parsed.value);
    var ok := u.Settle(order);
    if !ok {
      return null;
    }
    SettleLowers(parsed.value, u.columnIdxs, u.columnVectors, order, 0);
  }

  /** `part_one`: after settling, the number of bricks that can be taken
      away without any brick above falling. */
  method PartOne(input: string) returns (r: Option<nat>)
    ensures ParseAll(Lines(input)).None? ==> r.None?
    ensures r.Some? ==> r.value <= |ParseAll(Lines(input)).value|
  {
    var u := Settled(input);
    if u == null {
      return None;
    }
    var order := ByZ(u.bricks);
    ByZOrder(u.bricks);
    r := u.NonCritical1(order);
    if r.Some? {
      CountBound(u.bricks, u.columnIdxs, u.columnVectors, order, 0);
    }
  }

  /** `part_two`: after settling, the number of bricks that fall summed
      over the removal of each brick. */
  method PartTwo(input: string) returns (r: Option<nat>)
    ensures ParseAll(Lines(input)).None? ==> r.None?
  {
    var u := Settled(input);
    if u == null {
      return None;
    }
    var order := ByZ(u.bricks);
    r := u.NonCritical2(order);
  }
}
