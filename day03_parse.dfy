/** Day 3, reading the schematic: the numbers in reading order, the symbols
    with their positions, and a table of `size * size` cells, `size` being
    the number of lines, where each digit's cell names the number it belongs
    to. Cell `(x, y)` is entry `y * size + x`. */
module Day03Parse {
  import opened Common
  import opened Day03

  datatype Coord = Coord(x: nat, y: nat)

  /** The numbers of the lines, line after line. */
  function Numbers(lines: seq<string>): seq<nat>
  {
    if lines == [] then [] else Numbers(lines[..|lines| - 1]) + Runs(lines[|lines| - 1])
  }

  /** The symbols of line `y`: every character that is neither a digit nor
      '.', with its position. */
  function LineSymbols(line: string, y: nat): seq<(Coord, char)>
  {
    if line == [] then []
    else
      var x := |line| - 1;
      LineSymbols(line[..x], y) + (if !IsDigit(line[x]) && line[x] != '.' then [(Coord(x, y), line[x])] else [])
  }

  /** The symbols of the lines, line after line. */
  function Symbols(lines: seq<string>): seq<(Coord, char)>
  {
    if lines == [] then [] else Symbols(lines[..|lines| - 1]) + LineSymbols(lines[|lines| - 1], |lines| - 1)
  }

  /** The cell table after line `y`'s digits are written into `d`: the
      digit at `x` writes, into entry `y * size + x`, the index its number
      will have, `base` being the count of numbers on earlier lines. A
      write past the end is where the source panics; it is skipped here and
      ruled out by `Fits`. */
  function FillLine(d: seq<Option<nat>>, line: string, y: nat, size: nat, base: nat): (r: seq<Option<nat>>)
    ensures |r| == |d|
  {
    if line == [] then d
    else
      var x := |line| - 1;
      var r := FillLine(d, line[..x], y, size, base);
      var i := y * size + x;
      if IsDigit(line[x]) && i < |r| then r[i := Some(base + |Runs(line)| - 1)] else r
  }

  /** The cell table after all the lines, starting from all `None`. */
  function Fill(lines: seq<string>, size: nat): (d: seq<Option<nat>>)
    ensures |d| == size * size
  {
    if lines == [] then seq(size * size, _ => None)
    else
      var init := lines[..|lines| - 1];
      FillLine(Fill(init, size), lines[|lines| - 1], |init|, size, |Numbers(init)|)
  }

  /** Cell `(x, y)` of a table of rows `size` wide, `None` past its end. */
  function Cell(d: seq<Option<nat>>, size: nat, x: nat, y: nat): Option<nat>
  {
    var i := y * size + x;
    if i < |d| then d[i] else None
  }

  /** The first `n` characters of line `y` write no digit past the table. */
  predicate LineFits(line: string, n: nat, y: nat, size: nat)
    requires n <= |line|
  {
    forall x :: 0 <= x < n && IsDigit(line[x]) ==> y * size + x < size * size
  }

  /** The first `n` lines write no digit past the table. */
  predicate Fits(lines: seq<string>, n: nat, size: nat)
    requires n <= |lines|
  {
    forall y :: 0 <= y < n ==> LineFits(lines[y], |lines[y]|, y, size)
  }

  /** The state of the scan of one line: the numbers finished so far and
      the one being read, if any. */
  function Pending(numbers: seq<nat>, current: Option<nat>): seq<nat>
  {
    if current.Some? then numbers + [current.value] else numbers
  }

  /** After `x` characters of a line the finished numbers and the one being
      read are those of the earlier lines and the runs so far, and a number
      is being read exactly when the last character was a digit. */
  predicate Scanned(line: string, x: nat, numbers0: seq<nat>, numbers: seq<nat>, current: Option<nat>)
    requires x <= |line|
  {
    && Pending(numbers, current) == numbers0 + Runs(line[..x])
    && (current.Some? <==> x > 0 && IsDigit(line[x - 1]))
  }

  /** The last number gains one more decimal digit. */
  lemma ExtendPending(numbers: seq<nat>, v: nat, d: nat)
    ensures Extend(numbers + [v], d) == numbers + [10 * v + d]
  {
    assert (numbers + [v])[..|numbers|] == numbers;
  }

  /** A digit extends the number being read, or starts one, which then has
      the index the finished numbers' count gives it. */
  lemma ScanDigit(line: string, x: nat, numbers0: seq<nat>, numbers: seq<nat>, current: Option<nat>)
    requires x < |line| && IsDigit(line[x]) && Scanned(line, x, numbers0, numbers, current)
    ensures var v := if current.Some? then 10 * current.value + DigitValue(line[x]) else DigitValue(line[x]);
      Scanned(line, x + 1, numbers0, numbers, Some(v))
    ensures |numbers| == |numbers0| + |Runs(line[..x + 1])| - 1
  {
    var c, d := line[x], DigitValue(line[x]);
    PrefixSnoc(line, x);
    if current.Some? {
      SnocExtend(line[..x], c);
      ExtendAfter(numbers0, Runs(line[..x]), d);
      ExtendPending(numbers, current.value, d);
    } else {
      SnocStart(line[..x], c);
    }
  }

  /** Any other character ends the number being read. */
  lemma ScanOther(line: string, x: nat, numbers0: seq<nat>, numbers: seq<nat>, current: Option<nat>)
    requires x < |line| && !IsDigit(line[x]) && Scanned(line, x, numbers0, numbers, current)
    ensures Scanned(line, x + 1, numbers0, Pending(numbers, current), None)
  {
    PrefixSnoc(line, x);
    SnocOther(line[..x], line[x]);
  }

  /** The `match` in `parse_input` on one character of line `y`: a digit
      extends or starts the current number and marks its cell; anything else
      ends the current number, and is recorded as a symbol unless it is '.'.
      `ok` is false where the cell lies past the table and the source panics. */
  method ScanChar(line: string, x: nat, y: nat, size: nat, digits: array<Option<nat>>,
                  ghost numbers0: seq<nat>, numbers: seq<nat>, current: Option<nat>)
    returns (ok: bool, numbers': seq<nat>, current': Option<nat>, symbol: seq<(Coord, char)>)
    requires x < |line| && digits.Length == size * size
    requires Scanned(line, x, numbers0, numbers, current)
    modifies digits
    ensures Scanned(line, x + 1, numbers0, numbers', current')
    ensures symbol == (if !IsDigit(line[x]) && line[x] != '.' then [(Coord(x, y), line[x])] else [])
    ensures ok <==> !IsDigit(line[x]) || y * size + x < size * size
    ensures ok && IsDigit(line[x]) ==>
              digits[..] == old(digits[..])[y * size + x := Some(|numbers0| + |Runs(line[..x + 1])| - 1)]
    ensures !IsDigit(line[x]) ==> digits[..] == old(digits[..])
  {
    var c := line[x];
    symbol := [];
    ok := true;
    if IsDigit(c) {
      ScanDigit(line, x, numbers0, numbers, current);
      var d := DigitValue(c);
      current' := if current.Some? then Some(10 * current.value + d) else Some(d);
      numbers' := numbers;
      var i := y * size + x;
      if i >= digits.Length {
        return false, numbers', current', symbol;
      }
      digits[i] := Some(|numbers|);
    } else {
      ScanOther(line, x, numbers0, numbers, current);
      numbers', current' := Pending(numbers, current), None;
      if c != '.' {
        symbol := [(Coord(x, y), c)];
      }
    }
  }

  /** The body of the outer loop of `parse_input` for line `y`: scans its
      characters, then ends the number being read. `ok` is false where a
      digit's cell lies past the table. */
  method ScanLine(line: string, y: nat, size: nat, digits: array<Option<nat>>, numbers: seq<nat>)
    returns (ok: bool, numbers': seq<nat>, symbols: seq<(Coord, char)>)
    requires digits.Length == size * size
    modifies digits
    ensures ok <==> LineFits(line, |line|, y, size)
    ensures ok ==> (&& numbers' == numbers + Runs(line)
                    && symbols == LineSymbols(line, y)
                    && digits[..] == FillLine(old(digits[..]), line, y, size, |numbers|))
  {
    ghost var d0 := digits[..];
    var current: Option<nat> := None;
    numbers', symbols := numbers, [];
    assert line[..0] == [];
    for x := 0 to |line|
      invariant Scanned(line, x, numbers, numbers', current)
      invariant symbols == LineSymbols(line[..x], y)
      invariant digits[..] == FillLine(d0, line[..x], y, size, |numbers|)
      invariant LineFits(line, x, y, size)
    {
      var symbol;
      ok, numbers', current, symbol := ScanChar(line, x, y, size, digits, numbers, numbers', current);
      assert line[..x + 1][..x] == line[..x];
      if !ok {
        return;
      }
      symbols := symbols + symbol;
    }
    assert line[..|line|] == line;
    numbers' := Pending(numbers', current);
    ok := true;
  }

  /** What `parse_input` returns. */
  datatype RawBoard = RawBoard(numbers: seq<nat>, digits: array<Option<nat>>, symbols: seq<(Coord, char)>, size: nat)

  /** One line more adds its numbers, its symbols and its cells. */
  lemma LinesStep(lines: seq<string>, y: nat, size: nat)
    requires y < |lines|
    ensures Numbers(lines[..y + 1]) == Numbers(lines[..y]) + Runs(lines[y])
    ensures Symbols(lines[..y + 1]) == Symbols(lines[..y]) + LineSymbols(lines[y], y)
    ensures Fill(lines[..y + 1], size) == FillLine(Fill(lines[..y], size), lines[y], y, size, |Numbers(lines[..y])|)
  {
    assert lines[..y + 1][..y] == lines[..y];
  }

  /** `parse_input` on the lines of the input: reads them into the
      numbers, the cell table and the symbols; `None` where a digit's cell
      lies past the table, where the source panics on the index. */
  method ParseLines(lines: seq<string>) returns (r: Option<RawBoard>)
    ensures r.None? <==> !Fits(lines, |lines|, |lines|)
    ensures r.Some? ==> fresh(r.value.digits)
    ensures r.Some? ==> (&& r.value.size == |lines|
                         && r.value.numbers == Numbers(lines)
                         && r.value.symbols == Symbols(lines)
                         && r.value.digits[..] == Fill(lines, |lines|))
  {
    var size := |lines|;
    var digits := new Option<nat>[size * size](_ => None);
    var numbers: seq<nat> := [];
    var symbols: seq<(Coord, char)> := [];
    assert digits[..] == Fill(lines[..0], size);
    for y := 0 to size
      invariant numbers == Numbers(lines[..y])
      invariant symbols == Symbols(lines[..y])
      invariant digits[..] == Fill(lines[..y], size)
      invariant Fits(lines, y, size)
    {
      var ok, numbers', lineSymbols := ScanLine(lines[y], y, size, digits, numbers);
      if !ok {
        return None;
      }
      LinesStep(lines, y, size);
      numbers, symbols := numbers', symbols + lineSymbols;
    }
    assert lines[..size] == lines;
    r := Some(RawBoard(numbers, digits, symbols, size));
  }

  /** `parse_input`: the lines of the input, read by `ParseLines`. */
  method ParseInput(input: string) returns (r: Option<RawBoard>)
    ensures r.None? <==> !Fits(Lines(input), |Lines(input)|, |Lines(input)|)
    ensures r.Some? ==> fresh(r.value.digits)
    ensures r.Some? ==> (var lines := Lines(input);
                         && r.value.size == |lines|
                         && r.value.numbers == Numbers(lines)
                         && r.value.symbols == Symbols(lines)
                         && r.value.digits[..] == Fill(lines, |lines|))
  {
    r := ParseLines(Lines(input));
  }
}
