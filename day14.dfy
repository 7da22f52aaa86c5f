/** Day 14: rounded rocks rolling along a row until a cube-shaped rock or
    the edge stops them. A row is tilted towards its end (east). */
module Day14 {
  import opened Common

  /** The symbols in the order Rust derives for them: `Empty < Round < Cube`. */
  datatype Symbol = Empty | Round | Cube

  function Rank(s: Symbol): nat
  {
    match s
    case Empty => 0
    case Round => 1
    case Cube => 2
  }

  /** `Symbol::from_char`; any other character is a panic, `None`. */
  function FromChar(c: char): (r: Option<Symbol>)
    ensures r.Some? <==> c in "O#."
  {
    if c == 'O' then Some(Round) else if c == '#' then Some(Cube) else if c == '.' then Some(Empty) else None
  }

  function ToChar(s: Symbol): char
  {
    match s
    case Empty => '.'
    case Round => 'O'
    case Cube => '#'
  }

  lemma {:induction false} CharRoundTrip(s: Symbol)
    ensures FromChar(ToChar(s)) == Some(s)
  {
  }

  /** A symbol with the stretch key the row's `scan` gives it. */
  type Tagged = (nat, Symbol)

  /** The tuple order `sorted_unstable` uses: key first, then symbol. */
  predicate Le(a: Tagged, b: Tagged)
  {
    a.0 < b.0 || (a.0 == b.0 && Rank(a.1) <= Rank(b.1))
  }

  /** The derived order is a total order. */
  lemma {:induction false} LeTotal(a: Tagged, b: Tagged, c: Tagged)
    ensures Le(a, b) || Le(b, a)
    ensures Le(a, b) && Le(b, a) ==> a == b
    ensures Le(a, b) && Le(b, c) ==> Le(a, c)
  {
    if Le(a, b) && Le(b, a) {
      assert a.0 == b.0 && Rank(a.1) == Rank(b.1);
      assert a.1 == b.1;
    }
  }

  /** The row's `scan`: a cube raises the key by two and takes the key in
      between, so each stretch between cubes shares one key. */
  function TagFrom(row: seq<Symbol>, group: nat): (t: seq<Tagged>)
    ensures |t| == |row|
  {
    if row == [] then []
    else if row[0] == Cube then [(group + 1, Cube)] + TagFrom(row[1..], group + 2)
    else [(group, row[0])] + TagFrom(row[1..], group)
  }

  /** The scan keeps the symbols and never goes below its start. */
  lemma {:induction false} TagKeys(row: seq<Symbol>, group: nat)
    ensures forall i :: 0 <= i < |row| ==> TagFrom(row, group)[i].1 == row[i] && TagFrom(row, group)[i].0 >= group
    decreases |row|
  {
    if row != [] {
      var g := if row[0] == Cube then group + 2 else group;
      TagKeys(row[1..], g);
      var t := TagFrom(row, group);
      assert t[1..] == TagFrom(row[1..], g);
      forall i | 1 <= i < |row|
        ensures t[i].1 == row[i] && t[i].0 >= group
      {
        assert t[i] == t[1..][i - 1] && row[i] == row[1..][i - 1];
      }
    }
  }

  predicate Sorted(t: seq<Tagged>)
  {
    forall i, j :: 0 <= i < j < |t| ==> Le(t[i], t[j])
  }

  /** `n` copies of a symbol. */
  function Repeat(s: Symbol, n: nat): (r: seq<Symbol>)
    ensures |r| == n && forall i :: 0 <= i < n ==> r[i] == s
  {
    if n == 0 then [] else [s] + Repeat(s, n - 1)
  }

  /** A stretch settled: its empty cells first, then its rounded rocks. */
  function Fill(empties: nat, rounds: nat): seq<Symbol>
  {
    Repeat(Empty, empties) + Repeat(Round, rounds)
  }

  /** The row tilted, with `empties` empty cells and `rounds` rounded rocks
      of the current stretch already passed over. */
  function TiltFrom(row: seq<Symbol>, empties: nat, rounds: nat): (t: seq<Symbol>)
    ensures |t| == empties + rounds + |row|
  {
    if row == [] then Fill(empties, rounds)
    else if row[0] == Cube then Fill(empties, rounds) + [Cube] + TiltFrom(row[1..], 0, 0)
    else if row[0] == Empty then TiltFrom(row[1..], empties + 1, rounds)
    else TiltFrom(row[1..], empties, rounds + 1)
  }

  /** A row after the tilt: in every stretch between cubes the rounded rocks
      have rolled to its end. */
  function TiltRow(row: seq<Symbol>): seq<Symbol>
  {
    TiltFrom(row, 0, 0)
  }

  /** The cubes stay where they are and the settled stretch before the row
      holds none. */
  lemma {:induction false} CubesStayFrom(row: seq<Symbol>, empties: nat, rounds: nat)
    ensures forall j :: 0 <= j < empties + rounds ==> TiltFrom(row, empties, rounds)[j] != Cube
    ensures forall i :: 0 <= i < |row| ==> (TiltFrom(row, empties, rounds)[empties + rounds + i] == Cube <==> row[i] == Cube)
    decreases |row|
  {
    var t := TiltFrom(row, empties, rounds);
    var f := Fill(empties, rounds);
    if row == [] {
      assert t == f;
    } else if row[0] == Cube {
      CubesStayFrom(row[1..], 0, 0);
      assert t == f + [Cube] + TiltFrom(row[1..], 0, 0);
      forall i | 0 <= i < |row|
        ensures t[empties + rounds + i] == Cube <==> row[i] == Cube
      {
        if i > 0 {
          assert t[empties + rounds + i] == TiltFrom(row[1..], 0, 0)[i - 1];
          assert row[i] == row[1..][i - 1];
        }
      }
    } else if row[0] == Empty {
      CubesStayFrom(row[1..], empties + 1, rounds);
      assert t == TiltFrom(row[1..], empties + 1, rounds);
      forall i | 0 <= i < |row|
        ensures t[empties + rounds + i] == Cube <==> row[i] == Cube
      {
        if i > 0 {
          assert row[i] == row[1..][i - 1];
          assert t[empties + rounds + i] == t[(empties + 1) + rounds + (i - 1)];
        }
      }
    } else {
      CubesStayFrom(row[1..], empties, rounds + 1);
      assert t == TiltFrom(row[1..], empties, rounds + 1);
      forall i | 0 <= i < |row|
        ensures t[empties + rounds + i] == Cube <==> row[i] == Cube
      {
        if i > 0 {
          assert row[i] == row[1..][i - 1];
          assert t[empties + rounds + i] == t[empties + (rounds + 1) + (i - 1)];
        }
      }
    }
  }

  /** A tilt keeps the row's length and every cube at its index. */
  lemma {:induction false} CubesStay(row: seq<Symbol>)
    ensures |TiltRow(row)| == |row|
    ensures forall i :: 0 <= i < |row| ==> (TiltRow(row)[i] == Cube <==> row[i] == Cube)
  {
    CubesStayFrom(row, 0, 0);
  }

  lemma {:induction false} FillEmpty(empties: nat, rounds: nat)
    ensures Fill(empties + 1, rounds) == [Empty] + Fill(empties, rounds)
  {
    assert Repeat(Empty, empties + 1) == [Empty] + Repeat(Empty, empties);
  }

  lemma {:induction false} FillRound(empties: nat, rounds: nat)
    ensures Fill(empties, rounds + 1) == Repeat(Empty, empties) + [Round] + Repeat(Round, rounds)
  {
    assert Repeat(Round, rounds + 1) == [Round] + Repeat(Round, rounds);
  }

  /** A tilt keeps the number of cells of each kind. */
  lemma {:induction false} TiltKeepsCountsFrom(row: seq<Symbol>, empties: nat, rounds: nat)
    ensures multiset(TiltFrom(row, empties, rounds)) == multiset(row) + multiset(Fill(empties, rounds))
    decreases |row|, 1
  {
    if row == [] {
      assert TiltFrom(row, empties, rounds) == Fill(empties, rounds);
    } else {
      KeepsCountsStep(row, empties, rounds);
    }
  }

  lemma {:induction false} KeepsCountsStep(row: seq<Symbol>, empties: nat, rounds: nat)
    requires row != []
    ensures multiset(TiltFrom(row, empties, rounds)) == multiset(row) + multiset(Fill(empties, rounds))
    decreases |row|, 0
  {
    var rest := row[1..];
    assert row == [row[0]] + rest;
    assert multiset(row) == multiset{row[0]} + multiset(rest);
    if row[0] == Cube {
      var tr := TiltFrom(rest, 0, 0);
      TiltKeepsCountsFrom(rest, 0, 0);
      assert Fill(0, 0) == [];
      assert TiltFrom(row, empties, rounds) == Fill(empties, rounds) + [Cube] + tr;
    } else {
      var e, r := if row[0] == Empty then empties + 1 else empties, if row[0] == Empty then rounds else rounds + 1;
      TiltKeepsCountsFrom(rest, e, r);
      FillCounts(row[0], empties, rounds);
    }
  }

  lemma {:induction false} FillCounts(s: Symbol, empties: nat, rounds: nat)
    requires s != Cube
    ensures var e, r := if s == Empty then empties + 1 else empties, if s == Empty then rounds else rounds + 1;
      multiset(Fill(e, r)) == multiset{s} + multiset(Fill(empties, rounds))
  {
    if s == Empty {
      FillEmpty(empties, rounds);
    } else {
      FillRound(empties, rounds);
    }
  }

  lemma {:induction false} TiltKeepsCounts(row: seq<Symbol>)
    ensures multiset(TiltRow(row)) == multiset(row)
  {
    TiltKeepsCountsFrom(row, 0, 0);
    assert Fill(0, 0) == [];
  }

  lemma {:induction false} FillAbsorbed(empties: nat, rounds: nat, tail: seq<Symbol>, e: nat, r: nat)
    ensures TiltFrom(Fill(empties, rounds) + tail, e, r) == TiltFrom(tail, e + empties, r + rounds)
    decreases empties + rounds
  {
    var f := Fill(empties, rounds);
    if empties > 0 {
      assert f + tail == [Empty] + (Fill(empties - 1, rounds) + tail);
      FillAbsorbed(empties - 1, rounds, tail, e + 1, r);
    } else if rounds > 0 {
      assert f + tail == [Round] + (Fill(0, rounds - 1) + tail);
      FillAbsorbed(0, rounds - 1, tail, e, r + 1);
    } else {
      assert f + tail == tail;
    }
  }

  lemma {:induction false} TiltTwiceFrom(row: seq<Symbol>, empties: nat, rounds: nat)
    ensures TiltRow(TiltFrom(row, empties, rounds)) == TiltFrom(row, empties, rounds)
    decreases |row|
  {
    if row == [] {
      FillAbsorbed(empties, rounds, [], 0, 0);
      assert Fill(empties, rounds) + [] == Fill(empties, rounds);
    } else if row[0] == Cube {
      var rest := TiltFrom(row[1..], 0, 0);
      TiltTwiceFrom(row[1..], 0, 0);
      assert Fill(empties, rounds) + [Cube] + rest == Fill(empties, rounds) + ([Cube] + rest);
      FillAbsorbed(empties, rounds, [Cube] + rest, 0, 0);
      assert ([Cube] + rest)[1..] == rest;
      assert Fill(empties, rounds) + [] == Fill(empties, rounds);
    } else if row[0] == Empty {
      TiltTwiceFrom(row[1..], empties + 1, rounds);
    } else {
      TiltTwiceFrom(row[1..], empties, rounds + 1);
    }
  }

  /** Tilting a tilted row changes nothing. */
  lemma {:induction false} TiltTwice(row: seq<Symbol>)
    ensures TiltRow(TiltRow(row)) == TiltRow(row)
  {
    TiltTwiceFrom(row, 0, 0);
  }

  predicate NoCube(s: seq<Symbol>)
  {
    forall i :: 0 <= i < |s| ==> s[i] != Cube
  }

  /** A stretch without cubes keeps one key throughout. */
  lemma {:induction false} TagFlat(s: seq<Symbol>, tail: seq<Symbol>, group: nat)
    requires NoCube(s)
    ensures TagFrom(s + tail, group) == TagFrom(s, group) + TagFrom(tail, group)
    ensures forall i :: 0 <= i < |s| ==> TagFrom(s, group)[i] == (group, s[i])
    decreases |s|
  {
    if s == [] {
      assert s + tail == tail;
    } else {
      assert (s + tail)[1..] == s[1..] + tail;
      assert (s + tail)[0] == s[0];
      TagFlat(s[1..], tail, group);
    }
  }

  lemma {:induction false} FillLayout(empties: nat, rounds: nat)
    ensures forall i :: 0 <= i < empties + rounds ==> Fill(empties, rounds)[i] == if i < empties then Empty else Round
  {
  }

  /** A settled stretch, tagged, is in sorted order. */
  lemma {:induction false} TagFillSorted(empties: nat, rounds: nat, tail: seq<Symbol>, group: nat)
    ensures TagFrom(Fill(empties, rounds) + tail, group) == TagFrom(Fill(empties, rounds), group) + TagFrom(tail, group)
    ensures forall i :: 0 <= i < empties + rounds ==> TagFrom(Fill(empties, rounds), group)[i].0 == group
    ensures Sorted(TagFrom(Fill(empties, rounds), group))
  {
    var f := Fill(empties, rounds);
    FillLayout(empties, rounds);
    TagFlat(f, tail, group);
    var t := TagFrom(f, group);
    forall i, j | 0 <= i < j < |t|
      ensures Le(t[i], t[j])
    {
      assert t[i] == (group, f[i]) && t[j] == (group, f[j]);
    }
  }

  lemma {:induction false} SortedAppend(a: seq<Tagged>, b: seq<Tagged>, key: nat)
    requires Sorted(a) && Sorted(b)
    requires forall i :: 0 <= i < |a| ==> a[i].0 <= key
    requires forall i :: 0 <= i < |b| ==> b[i].0 > key
    ensures Sorted(a + b)
  {
  }

  /** The tilted row, tagged by the same `scan`, is in sorted order. */
  lemma {:induction false} TiltSortedFrom(row: seq<Symbol>, empties: nat, rounds: nat, group: nat)
    ensures Sorted(TagFrom(TiltFrom(row, empties, rounds), group))
    decreases |row|
  {
    var f := Fill(empties, rounds);
    if row == [] {
      TagFillSorted(empties, rounds, [], group);
      assert f + [] == f;
    } else if row[0] == Cube {
      var rest := TiltFrom(row[1..], 0, 0);
      TiltSortedFrom(row[1..], 0, 0, group + 2);
      TagKeys(rest, group + 2);
      assert f + [Cube] + rest == f + ([Cube] + rest);
      TagFillSorted(empties, rounds, [Cube] + rest, group);
      assert ([Cube] + rest)[1..] == rest;
      var tail := TagFrom([Cube] + rest, group);
      assert tail == [(group + 1, Cube)] + TagFrom(rest, group + 2);
      SortedAppend([(group + 1, Cube)], TagFrom(rest, group + 2), group + 1);
      SortedAppend(TagFrom(f, group), tail, group);
    } else if row[0] == Empty {
      TiltSortedFrom(row[1..], empties + 1, rounds, group);
    } else {
      TiltSortedFrom(row[1..], empties, rounds + 1, group);
    }
  }

  /** The tilted row holds the same tagged cells as the row. */
  lemma {:induction false} TiltTagsFrom(row: seq<Symbol>, empties: nat, rounds: nat, group: nat)
    ensures multiset(TagFrom(TiltFrom(row, empties, rounds), group))
      == multiset(TagFrom(row, group)) + multiset(TagFrom(Fill(empties, rounds), group))
    decreases |row|, 1
  {
    if row == [] {
      assert TiltFrom(row, empties, rounds) == Fill(empties, rounds);
    } else if row[0] == Cube {
      TiltTagsCube(row, empties, rounds, group);
    } else {
      TiltTagsStretch(row, empties, rounds, group);
    }
  }

  lemma {:induction false} TiltTagsCube(row: seq<Symbol>, empties: nat, rounds: nat, group: nat)
    requires row != [] && row[0] == Cube
    ensures multiset(TagFrom(TiltFrom(row, empties, rounds), group))
      == multiset(TagFrom(row, group)) + multiset(TagFrom(Fill(empties, rounds), group))
    decreases |row|, 0
  {
    var f := Fill(empties, rounds);
    var rest := TiltFrom(row[1..], 0, 0);
    TiltTagsFrom(row[1..], 0, 0, group + 2);
    assert Fill(0, 0) == [];
    var mr := multiset(TagFrom(rest, group + 2));
    assert mr == multiset(TagFrom(row[1..], group + 2));
    assert TiltFrom(row, empties, rounds) == f + ([Cube] + rest);
    TagFillSorted(empties, rounds, [Cube] + rest, group);
    assert ([Cube] + rest)[1..] == rest;
    assert TagFrom([Cube] + rest, group) == [(group + 1, Cube)] + TagFrom(rest, group + 2);
    assert TagFrom(row, group) == [(group + 1, Cube)] + TagFrom(row[1..], group + 2);
  }

  lemma {:induction false} TiltTagsStretch(row: seq<Symbol>, empties: nat, rounds: nat, group: nat)
    requires row != [] && row[0] != Cube
    ensures multiset(TagFrom(TiltFrom(row, empties, rounds), group))
      == multiset(TagFrom(row, group)) + multiset(TagFrom(Fill(empties, rounds), group))
    decreases |row|, 0
  {
    var mf := multiset(TagFrom(Fill(empties, rounds), group));
    var mrest := multiset(TagFrom(row[1..], group));
    assert TagFrom(row, group) == [(group, row[0])] + TagFrom(row[1..], group);
    assert multiset(TagFrom(row, group)) == multiset{(group, row[0])} + mrest;
    var e, r := if row[0] == Empty then empties + 1 else empties, if row[0] == Empty then rounds else rounds + 1;
    assert TiltFrom(row, empties, rounds) == TiltFrom(row[1..], e, r);
    TiltTagsFrom(row[1..], e, r, group);
    if row[0] == Empty {
      FillEmpty(empties, rounds);
      assert ([Empty] + Fill(empties, rounds))[1..] == Fill(empties, rounds);
      assert TagFrom(Fill(e, r), group) == [(group, Empty)] + TagFrom(Fill(empties, rounds), group);
    } else {
      RoundTags(empties, rounds, group);
    }
    assert multiset(TagFrom(Fill(e, r), group)) == multiset{(group, row[0])} + mf;
  }

  lemma {:induction false} RoundTags(empties: nat, rounds: nat, group: nat)
    ensures multiset(TagFrom(Fill(empties, rounds + 1), group))
      == multiset(TagFrom(Fill(empties, rounds), group)) + multiset{(group, Round)}
  {
    var es, rs := Repeat(Empty, empties), Repeat(Round, rounds);
    FillRound(empties, rounds);
    assert Fill(empties, rounds + 1) == es + ([Round] + rs);
    TagFlat(es, [Round] + rs, group);
    TagFlat(es, rs, group);
    assert ([Round] + rs)[1..] == rs;
  }

  /** The head of a sorted sequence is below everything in it, and its tail
      is sorted. */
  lemma {:induction false} SortedHead(a: seq<Tagged>, x: Tagged)
    requires Sorted(a) && x in multiset(a)
    ensures Le(a[0], x) && Sorted(a[1..])
  {
    var i :| 0 <= i < |a| && a[i] == x;
    if i == 0 {
      LeTotal(x, x, x);
    }
    forall k, l | 0 <= k < l < |a| - 1
      ensures Le(a[1..][k], a[1..][l])
    {
      assert Le(a[k + 1], a[l + 1]);
    }
  }

  /** Two sorted sequences holding the same elements are equal. */
  lemma {:induction false} SortedUnique(a: seq<Tagged>, b: seq<Tagged>)
    requires Sorted(a) && Sorted(b) && multiset(a) == multiset(b)
    ensures a == b
    decreases |a|
  {
    if a == [] {
      assert |b| == |multiset(b)| == |multiset(a)| == 0;
    } else {
      assert |b| == |multiset(b)| == |multiset(a)| == |a|;
      assert a[0] in multiset(a) && b[0] in multiset(b);
      SortedHead(a, b[0]);
      SortedHead(b, a[0]);
      LeTotal(a[0], b[0], a[0]);
      assert a[0] == b[0];
      assert a == [a[0]] + a[1..] && b == [b[0]] + b[1..];
      assert multiset(a) == multiset{a[0]} + multiset(a[1..]);
      assert multiset(b) == multiset{a[0]} + multiset(b[1..]);
      assert multiset(a[1..]) == multiset(a) - multiset{a[0]};
      assert multiset(b[1..]) == multiset(b) - multiset{a[0]};
      SortedUnique(a[1..], b[1..]);
    }
  }

  function Seconds(t: seq<Tagged>): (s: seq<Symbol>)
    ensures |s| == |t| && forall i :: 0 <= i < |t| ==> s[i] == t[i].1
  {
    seq(|t|, i requires 0 <= i < |t| => t[i].1)
  }

  /** Whatever order `sorted_unstable` picks among equal elements, the row
      it produces is the tilted row. */
  lemma {:induction false} SortIsTilt(row: seq<Symbol>, sorted: seq<Tagged>)
    requires Sorted(sorted) && multiset(sorted) == multiset(TagFrom(row, 0))
    ensures Seconds(sorted) == TiltRow(row)
  {
    TiltSortedFrom(row, 0, 0, 0);
    TagKeys(TiltRow(row), 0);
    TiltTagsFrom(row, 0, 0, 0);
    assert Fill(0, 0) == [];
    SortedUnique(sorted, TagFrom(TiltRow(row), 0));
  }
}
