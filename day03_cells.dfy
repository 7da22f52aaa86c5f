/** Day 3, what the cell table says. On a square schematic (no line longer
    than the number of lines) every digit's cell names the number of its
    run, and every other cell is empty; on any schematic every index in the
    table names a number that exists. */
module Day03Cells {
  import opened Common
  import opened Day03
  import opened Day03Parse

  /** A product of two non-negative numbers is not negative. */
  lemma ProductNonNegative(a: int, b: int)
    requires a >= 0 && b >= 0
    ensures a * b >= 0
  {
  }

  /** Multiplying by `size` keeps the order of rows. */
  lemma RowsOrdered(a: int, b: int, size: int)
    requires a <= b && size >= 0
    ensures a * size <= b * size
  {
    ProductNonNegative(b - a, size);
    assert (b - a) * size == b * size - a * size;
  }

  /** Entry `y * size + x` of a `size * size` table is inside it. */
  lemma CellInRange(y: nat, x: nat, size: nat)
    requires y < size && x < size
    ensures y * size + x < size * size
  {
    RowsOrdered(y + 1, size, size);
    assert (y + 1) * size == y * size + size;
  }

  /** Entry `y * size + x` lies in row `r`'s stretch of the table exactly
      when `y` is `r`. */
  lemma CellRow(y: nat, x: nat, r: nat, size: nat)
    requires x < size
    ensures r * size <= y * size + x < r * size + size <==> y == r
  {
    if y < r {
      RowsOrdered(y + 1, r, size);
      assert (y + 1) * size == y * size + size;
    } else if y > r {
      RowsOrdered(r + 1, y, size);
      assert (r + 1) * size == r * size + size;
    }
  }

  /** A schematic is square when no line is longer than the number of
      lines. */
  predicate Square(lines: seq<string>)
  {
    forall y :: 0 <= y < |lines| ==> |lines[y]| <= |lines|
  }

  /** On a square schematic no digit falls past the table. */
  lemma SquareFits(lines: seq<string>)
    requires Square(lines)
    ensures Fits(lines, |lines|, |lines|)
  {
    var size := |lines|;
    forall y | 0 <= y < size
      ensures LineFits(lines[y], |lines[y]|, y, size)
    {
      forall x | 0 <= x < |lines[y]| && IsDigit(lines[y][x])
        ensures y * size + x < size * size
      {
        CellInRange(y, x, size);
      }
    }
  }

  /** Entry `i` after line `r` is written: the line's digit there names the
      count of numbers up to it, less one; any other entry is unchanged. */
  lemma {:induction false} FillLineCell(d: seq<Option<nat>>, line: string, r: nat, size: nat, base: nat, i: nat)
    requires |d| == size * size && r < size && |line| <= size && i < |d|
    ensures FillLine(d, line, r, size, base)[i] ==
      if r * size <= i < r * size + |line| && IsDigit(line[i - r * size])
      then Some(base + |Runs(line[..i - r * size + 1])| - 1)
      else d[i]
    decreases |line|
  {
    if line != [] {
      var x := |line| - 1;
      var init := line[..x];
      FillLineCell(d, init, r, size, base, i);
      CellInRange(r, x, size);
      if r * size <= i < r * size + x {
        var j := i - r * size;
        assert init[j] == line[j] && init[..j + 1] == line[..j + 1];
      } else if i == r * size + x {
        assert line[..x + 1] == line;
      }
    }
  }

  /** On a square schematic cell `(x, y)` names, when it holds a digit, the
      count of numbers up to and including that digit's run, less one, and
      is empty otherwise. */
  lemma {:induction false} SquareCell(lines: seq<string>, n: nat, y: nat, x: nat)
    requires Square(lines) && n <= |lines| && y < |lines| && x < |lines|
    ensures var size := |lines|;
      Cell(Fill(lines[..n], size), size, x, y) ==
        if y < n && x < |lines[y]| && IsDigit(lines[y][x])
        then Some(|Numbers(lines[..y])| + |Runs(lines[y][..x + 1])| - 1)
        else None
    decreases n
  {
    var size := |lines|;
    CellInRange(y, x, size);
    if n == 0 {
      assert lines[..0] == [];
    } else {
      var r := n - 1;
      LinesStep(lines, r, size);
      SquareCell(lines, r, y, x);
      FillLineCell(Fill(lines[..r], size), lines[r], r, size, |Numbers(lines[..r])|, y * size + x);
      CellRow(y, x, r, size);
    }
  }

  /** The numbers of the first lines begin the numbers of all of them. */
  lemma {:induction false} NumbersPrefix(lines: seq<string>, n: nat)
    requires n <= |lines|
    ensures Numbers(lines[..n]) <= Numbers(lines)
    decreases |lines| - n
  {
    if n < |lines| {
      NumbersPrefix(lines, n + 1);
      LinesStep(lines, n, 0);
    } else {
      assert lines[..n] == lines;
    }
  }

  /** The numbers of line `y` sit in the numbers of all the lines right
      after those of the lines before it. */
  lemma NumberOfLine(lines: seq<string>, y: nat, r: nat)
    requires y < |lines| && r < |Runs(lines[y])|
    ensures |Numbers(lines[..y])| + r < |Numbers(lines)|
    ensures Numbers(lines)[|Numbers(lines[..y])| + r] == Runs(lines[y])[r]
  {
    LinesStep(lines, y, 0);
    NumbersPrefix(lines, y + 1);
    var p := Numbers(lines[..y + 1]);
    assert p[|Numbers(lines[..y])| + r] == Runs(lines[y])[r];
  }

  /** On a square schematic every digit's cell names the count of numbers
      up to and including its run, less one. */
  lemma DigitCell(lines: seq<string>, y: nat, x: nat)
    requires Square(lines) && y < |lines| && x < |lines[y]| && IsDigit(lines[y][x])
    ensures Cell(Fill(lines, |lines|), |lines|, x, y) == Some(|Numbers(lines[..y])| + |Runs(lines[y][..x + 1])| - 1)
  {
    SquareCell(lines, |lines|, y, x);
    assert lines[..|lines|] == lines;
  }

  /** The number a maximal run `lines[y][st..e]` stands for: its decimal
      reading, at the position the runs before it give. */
  lemma RunValue(lines: seq<string>, y: nat, st: nat, e: nat)
    requires y < |lines|
    requires st < e <= |lines[y]| && AllDigits(lines[y][st..e])
    requires st == 0 || !IsDigit(lines[y][st - 1])
    requires e == |lines[y]| || !IsDigit(lines[y][e])
    ensures var k := |Numbers(lines[..y])| + |Runs(lines[y][..st])|;
      k < |Numbers(lines)| && Numbers(lines)[k] == DecimalValue(lines[y][st..e])
  {
    RunNumber(lines[y], st, e, st);
    NumberOfLine(lines, y, |Runs(lines[y][..st])|);
  }

  /** On a square schematic every digit of a maximal run `lines[y][st..e]`
      has a cell naming the run's position among the numbers. */
  lemma RunDigitCell(lines: seq<string>, y: nat, st: nat, e: nat, x: nat)
    requires Square(lines) && y < |lines|
    requires st <= x < e <= |lines[y]| && AllDigits(lines[y][st..e])
    requires st == 0 || !IsDigit(lines[y][st - 1])
    requires e == |lines[y]| || !IsDigit(lines[y][e])
    ensures Cell(Fill(lines, |lines|), |lines|, x, y) == Some(|Numbers(lines[..y])| + |Runs(lines[y][..st])|)
  {
    var line := lines[y];
    assert IsDigit(line[x]) by {
      assert line[x] == line[st..e][x - st];
    }
    RunNumber(line, st, e, x);
    DigitCell(lines, y, x);
  }

  /** On a square schematic every digit of a maximal run `lines[y][st..e]`
      has a cell naming one and the same number, and that number is the
      run's decimal reading. */
  lemma RunCell(lines: seq<string>, y: nat, st: nat, e: nat, x: nat)
    requires Square(lines) && y < |lines|
    requires st <= x < e <= |lines[y]| && AllDigits(lines[y][st..e])
    requires st == 0 || !IsDigit(lines[y][st - 1])
    requires e == |lines[y]| || !IsDigit(lines[y][e])
    ensures var size, k := |lines|, |Numbers(lines[..y])| + |Runs(lines[y][..st])|;
      && Cell(Fill(lines, size), size, x, y) == Some(k)
      && k < |Numbers(lines)| && Numbers(lines)[k] == DecimalValue(lines[y][st..e])
  {
    RunDigitCell(lines, y, st, e, x);
    RunValue(lines, y, st, e);
  }

  /** Every entry of table `d` below `n`. */
  predicate Below(d: seq<Option<nat>>, n: nat)
  {
    forall i :: 0 <= i < |d| && d[i].Some? ==> d[i].value < n
  }

  /** A line has at least as many numbers as any of its prefixes. */
  lemma {:induction false} RunsGrow(s: string, n: nat)
    requires n <= |s|
    ensures |Runs(s[..n])| <= |Runs(s)|
    decreases |s| - n
  {
    if n < |s| {
      RunsGrow(s, n + 1);
      PrefixSnoc(s, n);
      var c := s[n];
      if !IsDigit(c) {
        SnocOther(s[..n], c);
      } else if n > 0 && IsDigit(s[..n][n - 1]) {
        SnocExtend(s[..n], c);
      } else {
        SnocStart(s[..n], c);
      }
    } else {
      assert s[..n] == s;
    }
  }

  /** Writing a line keeps every entry below the count of numbers up to
      and including that line. */
  lemma {:induction false} FillLineBelow(d: seq<Option<nat>>, line: string, r: nat, size: nat, base: nat)
    requires Below(d, base)
    ensures Below(FillLine(d, line, r, size, base), base + |Runs(line)|)
    decreases |line|
  {
    if line != [] {
      var x := |line| - 1;
      FillLineBelow(d, line[..x], r, size, base);
      RunsGrow(line, x);
    }
  }

  /** Every index in the cell table names a number: it is below the count
      of numbers. */
  lemma {:induction false} FillBelow(lines: seq<string>, size: nat)
    ensures Below(Fill(lines, size), |Numbers(lines)|)
    decreases |lines|
  {
    if lines != [] {
      var init := lines[..|lines| - 1];
      FillBelow(init, size);
      FillLineBelow(Fill(init, size), lines[|lines| - 1], |init|, size, |Numbers(init)|);
    }
  }

  /** Every symbol lies on one of the lines. */
  lemma {:induction false} SymbolsOnLines(lines: seq<string>, j: nat)
    requires j < |Symbols(lines)|
    ensures Symbols(lines)[j].0.y < |lines|
    decreases |lines|
  {
    var init := lines[..|lines| - 1];
    if j < |Symbols(init)| {
      SymbolsOnLines(init, j);
    } else {
      LineSymbolsOnLine(lines[|lines| - 1], |lines| - 1, j - |Symbols(init)|);
    }
  }

  /** Every symbol of line `y` has row `y`. */
  lemma {:induction false} LineSymbolsOnLine(line: string, y: nat, j: nat)
    requires j < |LineSymbols(line, y)|
    ensures LineSymbols(line, y)[j].0.y == y
    decreases |line|
  {
    var init := line[..|line| - 1];
    if j < |LineSymbols(init, y)| {
      LineSymbolsOnLine(init, y, j);
    }
  }
}
