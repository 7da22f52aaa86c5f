/** Day 12, input and answer: each line is a row of springs, a space, and
    the group lengths separated by commas. */
module Day12Input {
  import opened Common
  import opened Day12
  import opened Day12Count

  datatype Record = Record(row: seq<Spring>, groups: seq<nat>)

  /** The springs of a line, `None` at the first character that is none of
      `#`, `.` and `?`. */
  function ParseSprings(s: string): (r: Option<seq<Spring>>)
    ensures r.Some? ==> |r.value| == |s|
    ensures r.Some? ==> forall i :: 0 <= i < |s| ==> FromChar(s[i]) == Some(r.value[i])
  {
    if s == [] then Some([])
    else match (FromChar(s[0]), ParseSprings(s[1..]))
      case (Some(x), Some(xs)) => Some([x] + xs)
      case _ => None
  }

  /** Each piece read as a `usize` (64 bits wide). */
  function ParseGroups(pieces: seq<string>): (r: Option<seq<nat>>)
    ensures r.Some? ==> |r.value| == |pieces|
  {
    if pieces == [] then Some([])
    else match (ParseNat(pieces[0], U64_MAX), ParseGroups(pieces[1..]))
      case (Some(g), Some(gs)) => Some([g] + gs)
      case _ => None
  }

  /** `parse_input` on one line; `None` where it panics. */
  function ParseRecord(line: string): Option<Record>
  {
    match SplitOnce(line, " ")
    case None => None
    case Some((states, groups)) =>
      match (ParseSprings(states), ParseGroups(Split(groups, ",")))
      case (Some(row), Some(gs)) => Some(Record(row, gs))
      case _ => None
  }

  function SpringText(row: seq<Spring>): (s: string)
    ensures |s| == |row|
    ensures forall i :: 0 <= i < |row| ==> s[i] == ToChar(row[i])
  {
    if row == [] then [] else [ToChar(row[0])] + SpringText(row[1..])
  }

  function GroupTexts(groups: seq<nat>): (ts: seq<string>)
    ensures |ts| == |groups|
    ensures forall i :: 0 <= i < |groups| ==> ts[i] == Decimal(groups[i])
  {
    if groups == [] then [] else [Decimal(groups[0])] + GroupTexts(groups[1..])
  }

  /** A record written the way the puzzle input writes it. */
  function RecordText(r: Record): string
    requires r.groups != []
  {
    SpringText(r.row) + " " + Join(GroupTexts(r.groups), ",")
  }

  lemma {:induction false} SpringsRoundTrip(row: seq<Spring>)
    ensures ParseSprings(SpringText(row)) == Some(row)
    decreases |row|
  {
    if row != [] {
      SpringsRoundTrip(row[1..]);
      CharRoundTrip(row[0]);
      var s := SpringText(row);
      assert s[0] == ToChar(row[0]) && s[1..] == SpringText(row[1..]);
      assert [row[0]] + row[1..] == row;
    }
  }

  lemma {:induction false} GroupsRoundTrip(groups: seq<nat>)
    requires forall i :: 0 <= i < |groups| ==> groups[i] <= U64_MAX
    ensures ParseGroups(GroupTexts(groups)) == Some(groups)
    decreases |groups|
  {
    if groups != [] {
      GroupsRoundTrip(groups[1..]);
      ParseNatDecimal(groups[0], U64_MAX);
      var ts := GroupTexts(groups);
      assert ts[0] == Decimal(groups[0]) && ts[1..] == GroupTexts(groups[1..]);
      assert ParseNat(ts[0], U64_MAX) == Some(groups[0]);
      assert ParseGroups(ts[1..]) == Some(groups[1..]);
      assert [groups[0]] + groups[1..] == groups;
    }
  }

  /** Reading a written record gives it back, when its groups fit a `usize`. */
  lemma {:induction false} RecordRoundTrip(r: Record)
    requires r.groups != []
    requires forall i :: 0 <= i < |r.groups| ==> r.groups[i] <= U64_MAX
    ensures ParseRecord(RecordText(r)) == Some(r)
  {
    var springs := SpringText(r.row);
    var texts := GroupTexts(r.groups);
    assert ' ' !in springs by {
      forall i | 0 <= i < |springs|
        ensures springs[i] != ' '
      {
        assert springs[i] == ToChar(r.row[i]);
      }
    }
    FreeChar(springs, ' ');
    SplitOnceAt(springs, " ", Join(texts, ","));
    forall k | 0 <= k < |texts|
      ensures Free(texts[k], ",")
    {
      assert texts[k] == Decimal(r.groups[k]);
      forall j | 0 <= j < |texts[k]|
        ensures texts[k][j] != ','
      {
        assert IsDigit(texts[k][j]);
      }
      FreeChar(texts[k], ',');
    }
    SplitJoin(texts, ",");
    SpringsRoundTrip(r.row);
    GroupsRoundTrip(r.groups);
  }

  /** The records of all lines, `None` if any line does not parse. */
  function ParseRecords(lines: seq<string>): (r: Option<seq<Record>>)
    ensures r.Some? ==> |r.value| == |lines|
    ensures r.Some? ==> forall i :: 0 <= i < |lines| ==> ParseRecord(lines[i]) == Some(r.value[i])
  {
    if lines == [] then Some([])
    else match (ParseRecord(lines[0]), ParseRecords(lines[1..]))
      case (Some(x), Some(xs)) => Some([x] + xs)
      case _ => None
  }

  /** The brute-force counts of the records, added up. */
  function TotalCount(records: seq<Record>): nat
  {
    if records == [] then 0
    else
      var last := records[|records| - 1];
      TotalCount(records[..|records| - 1]) + Count(last.row, last.groups, Pow2(Unknowns(last.row)))
  }

  /** The numbers of arrangements of the records, added up. */
  function TotalArrangements(records: seq<Record>): nat
  {
    if records == [] then 0
    else
      var last := records[|records| - 1];
      TotalArrangements(records[..|records| - 1]) + |Arrangements(last.row, last.groups)|
  }

  /** With positive groups everywhere, part one adds up the numbers of
      arrangements. */
  lemma {:induction false} TotalIsArrangements(records: seq<Record>)
    requires forall i :: 0 <= i < |records| ==> Positive(records[i].groups)
    ensures TotalCount(records) == TotalArrangements(records)
    decreases |records|
  {
    if records != [] {
      var n := |records| - 1;
      TotalIsArrangements(records[..n]);
      CountIsArrangements(records[n].row, records[n].groups);
    }
  }

  /** Every record has fewer than 64 unknown springs. */
  predicate Brute(records: seq<Record>)
  {
    forall i :: 0 <= i < |records| ==> Unknowns(records[i].row) < 64
  }

  /** The sum in `part_one`, over rows that are already read. */
  method CountAll(records: seq<Record>) returns (total: nat)
    requires Brute(records)
    ensures total == TotalCount(records)
  {
    total := 0;
    for i := 0 to |records|
      invariant total == TotalCount(records[..i])
    {
      var count := BruteForceRow(records[i].row, records[i].groups);
      assert records[..i + 1][..i] == records[..i];
      total := total + count;
    }
    assert records[..|records|] == records;
  }

  /** `part_one`: every line must parse and have fewer than 64 unknown
      springs, or the solution panics. */
  method PartOne(lines: seq<string>) returns (total: nat)
    requires ParseRecords(lines).Some? && Brute(ParseRecords(lines).value)
    ensures total == TotalCount(ParseRecords(lines).value)
  {
    total := CountAll(ParseRecords(lines).value);
  }
}
