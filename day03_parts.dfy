/** Day 3, the answers: the sum of the part numbers, those adjacent to a
    symbol, each counted once; and the sum of the gear ratios, the products
    of the two numbers around each '*' that touches exactly two. */
module Day03Parts {
  import opened Common
  import opened Day03
  import opened Day03Parse
  import opened Day03Cells
  import opened Day03Board

  /** The elements of a list, as a set. */
  function Elements(s: seq<nat>): set<nat>
  {
    set k | k in s
  }

  /** The indices adjacent to some symbol. */
  function Touched(adjacent: seq<(char, seq<nat>)>): set<nat>
  {
    if adjacent == [] then {}
    else Touched(adjacent[..|adjacent| - 1]) + Elements(adjacent[|adjacent| - 1].1)
  }

  /** An index is touched exactly when some entry lists it; the entry is
      the one returned. */
  lemma {:induction false} TouchedSound(adjacent: seq<(char, seq<nat>)>, k: nat) returns (i: nat)
    requires k in Touched(adjacent)
    ensures i < |adjacent| && k in adjacent[i].1
    decreases |adjacent|
  {
    var init := adjacent[..|adjacent| - 1];
    if k in Touched(init) {
      i := TouchedSound(init, k);
      assert init[i] == adjacent[i];
    } else {
      i := |adjacent| - 1;
    }
  }

  lemma {:induction false} TouchedComplete(adjacent: seq<(char, seq<nat>)>, i: nat, k: nat)
    requires i < |adjacent| && k in adjacent[i].1
    ensures k in Touched(adjacent)
    decreases |adjacent|
  {
    var init := adjacent[..|adjacent| - 1];
    if i < |init| {
      assert init[i] == adjacent[i];
      TouchedComplete(init, i, k);
    }
  }

  /** A number is a part number exactly when a cell around some symbol
      names it. This direction returns the symbol and the cell. */
  lemma PartSound(d: seq<Option<nat>>, size: nat, symbols: seq<(Coord, char)>, k: nat)
    returns (j: nat, x: nat, y: nat)
    requires OnRows(symbols, size) && k in Touched(Adjacency(d, size, symbols))
    ensures j < |symbols| && Around(size, symbols[j].0, x, y) && Cell(d, size, x, y) == Some(k)
  {
    var i := TouchedSound(Adjacency(d, size, symbols), k);
    j := AdjacencySound(d, size, symbols, i);
    x, y := AdjacentSound(d, size, symbols[j].0, k);
  }

  /** A number named by a cell around a symbol is a part number. */
  lemma PartComplete(d: seq<Option<nat>>, size: nat, symbols: seq<(Coord, char)>, j: nat, x: nat, y: nat)
    requires OnRows(symbols, size) && j < |symbols| && size >= 1
    requires Around(size, symbols[j].0, x, y) && Cell(d, size, x, y).Some?
    ensures Cell(d, size, x, y).value in Touched(Adjacency(d, size, symbols))
  {
    AdjacentComplete(d, size, symbols[j].0, x, y);
    var i := AdjacencyComplete(d, size, symbols, j);
    TouchedComplete(Adjacency(d, size, symbols), i, Cell(d, size, x, y).value);
  }

  /** The sum of the numbers whose indices are in `parts`. */
  function PartSum(numbers: seq<nat>, parts: set<nat>): nat
  {
    if numbers == [] then 0
    else PartSum(numbers[..|numbers| - 1], parts) + (if |numbers| - 1 in parts then numbers[|numbers| - 1] else 0)
  }

  /** Each part number counts once: adding one more index to the parts adds
      its number, once. */
  lemma {:induction false} PartSumAdd(numbers: seq<nat>, parts: set<nat>, k: nat)
    requires k < |numbers| && k !in parts
    ensures PartSum(numbers, parts + {k}) == PartSum(numbers, parts) + numbers[k]
    decreases |numbers|
  {
    var init := numbers[..|numbers| - 1];
    if k < |init| {
      PartSumAdd(init, parts, k);
      assert init[k] == numbers[k];
    } else {
      PartSumSame(init, parts, parts + {k});
    }
  }

  /** Indices past the numbers do not matter. */
  lemma {:induction false} PartSumSame(numbers: seq<nat>, a: set<nat>, b: set<nat>)
    requires forall k :: 0 <= k < |numbers| ==> (k in a <==> k in b)
    ensures PartSum(numbers, a) == PartSum(numbers, b)
    decreases |numbers|
  {
    if numbers != [] {
      PartSumSame(numbers[..|numbers| - 1], a, b);
    }
  }

  /** With no parts the sum is zero. */
  lemma {:induction false} PartSumNone(numbers: seq<nat>)
    ensures PartSum(numbers, {}) == 0
    decreases |numbers|
  {
    if numbers != [] {
      PartSumNone(numbers[..|numbers| - 1]);
    }
  }

  /** Every index in the entries names a number. */
  predicate IndicesBelow(adjacent: seq<(char, seq<nat>)>, n: nat)
  {
    forall i, m :: 0 <= i < |adjacent| && 0 <= m < |adjacent[i].1| ==> adjacent[i].1[m] < n
  }

  /** A cell of a table whose indices are below `n` holds one below `n`. */
  lemma CellBelow(d: seq<Option<nat>>, size: nat, x: nat, y: nat, n: nat)
    requires Below(d, n) && Cell(d, size, x, y).Some?
    ensures Cell(d, size, x, y).value < n
  {
  }

  /** Entries drawn from a table whose indices are below `n` name only
      indices below `n`. */
  lemma AdjacencyBelow(d: seq<Option<nat>>, size: nat, symbols: seq<(Coord, char)>, n: nat)
    requires OnRows(symbols, size) && Below(d, n)
    ensures IndicesBelow(Adjacency(d, size, symbols), n)
  {
    var adjacent := Adjacency(d, size, symbols);
    forall i, m | 0 <= i < |adjacent| && 0 <= m < |adjacent[i].1|
      ensures adjacent[i].1[m] < n
    {
      var k := adjacent[i].1[m];
      TouchedComplete(adjacent, i, k);
      var j, x, y := PartSound(d, size, symbols, k);
      CellBelow(d, size, x, y, n);
    }
  }

  /** The entries of a board name only numbers that exist. */
  lemma BoardIndices(lines: seq<string>)
    ensures IndicesBelow(BoardOf(lines).adjacent, |BoardOf(lines).numbers|)
  {
    SymbolsOnRows(lines);
    FillBelow(lines, |lines|);
    AdjacencyBelow(Fill(lines, |lines|), |lines|, Symbols(lines), |Numbers(lines)|);
  }

  /** The first loop of `part_one`: flags every index listed in an entry. */
  method MarkParts(adjacent: seq<(char, seq<nat>)>, n: nat) returns (isPart: array<bool>)
    requires IndicesBelow(adjacent, n)
    ensures fresh(isPart) && isPart.Length == n
    ensures forall k :: 0 <= k < n ==> (isPart[k] <==> k in Touched(adjacent))
  {
    isPart := new bool[n](_ => false);
    for i := 0 to |adjacent|
      invariant forall k :: 0 <= k < n ==> (isPart[k] <==> k in Touched(adjacent[..i]))
    {
      var listed := adjacent[i].1;
      assert adjacent[..i + 1][..i] == adjacent[..i];
      for m := 0 to |listed|
        invariant forall k :: 0 <= k < n ==> (isPart[k] <==> k in Touched(adjacent[..i]) || k in listed[..m])
      {
        assert listed[..m + 1] == listed[..m] + [listed[m]];
        isPart[listed[m]] := true;
      }
      assert listed[..|listed|] == listed;
    }
    assert adjacent[..|adjacent|] == adjacent;
  }

  /** The `filter`/`map`/`sum` of `part_one`: the numbers whose flag is set. */
  method SumFlagged(numbers: seq<nat>, isPart: array<bool>, ghost parts: set<nat>) returns (total: nat)
    requires isPart.Length == |numbers|
    requires forall k :: 0 <= k < |numbers| ==> (isPart[k] <==> k in parts)
    ensures total == PartSum(numbers, parts)
  {
    total := 0;
    for c := 0 to |numbers|
      invariant total == PartSum(numbers[..c], parts)
    {
      assert numbers[..c + 1][..c] == numbers[..c];
      if isPart[c] {
        total := total + numbers[c];
      }
    }
    assert numbers[..|numbers|] == numbers;
  }

  /** `part_one`: the sum of the part numbers; `None` where the source
      panics reading the schematic. */
  method PartOne(input: string) returns (answer: Option<nat>)
    ensures answer.None? <==> !Fits(Lines(input), |Lines(input)|, |Lines(input)|)
    ensures answer.Some? ==> var b := BoardOf(Lines(input));
      answer.value == PartSum(b.numbers, Touched(b.adjacent))
  {
    var board := ProcessBoard(input);
    if board.None? {
      return None;
    }
    BoardIndices(Lines(input));
    var isPart := MarkParts(board.value.adjacent, |board.value.numbers|);
    var total := SumFlagged(board.value.numbers, isPart, Touched(board.value.adjacent));
    answer := Some(total);
  }

  /** The gear ratio of an entry: the product of its two numbers when it
      is a '*' with exactly two, otherwise nothing. */
  function Ratio(numbers: seq<nat>, entry: (char, seq<nat>)): nat
    requires forall m :: 0 <= m < |entry.1| ==> entry.1[m] < |numbers|
  {
    if entry.0 == '*' && |entry.1| == 2 then numbers[entry.1[0]] * numbers[entry.1[1]] else 0
  }

  /** The sum of the gear ratios. */
  function GearSum(numbers: seq<nat>, adjacent: seq<(char, seq<nat>)>): nat
    requires IndicesBelow(adjacent, |numbers|)
  {
    if adjacent == [] then 0
    else GearSum(numbers, adjacent[..|adjacent| - 1]) + Ratio(numbers, adjacent[|adjacent| - 1])
  }

  /** The loop of `part_two`: adds up the gear ratios of the entries. */
  method AddRatios(numbers: seq<nat>, adjacent: seq<(char, seq<nat>)>) returns (total: nat)
    requires IndicesBelow(adjacent, |numbers|)
    ensures total == GearSum(numbers, adjacent)
  {
    total := 0;
    for i := 0 to |adjacent|
      invariant total == GearSum(numbers, adjacent[..i])
    {
      assert adjacent[..i + 1][..i] == adjacent[..i];
      var (c, listed) := adjacent[i];
      if c == '*' && |listed| == 2 {
        total := total + numbers[listed[0]] * numbers[listed[1]];
      }
    }
    assert adjacent[..|adjacent|] == adjacent;
  }

  /** `part_two`: the sum of the gear ratios; `None` where the source
      panics reading the schematic. */
  method PartTwo(input: string) returns (answer: Option<nat>)
    ensures answer.None? <==> !Fits(Lines(input), |Lines(input)|, |Lines(input)|)
    ensures answer.Some? ==> var b := BoardOf(Lines(input));
      IndicesBelow(b.adjacent, |b.numbers|) && answer.value == GearSum(b.numbers, b.adjacent)
  {
    var board := ProcessBoard(input);
    if board.None? {
      return None;
    }
    BoardIndices(Lines(input));
    var total := AddRatios(board.value.numbers, board.value.adjacent);
    answer := Some(total);
  }

  /** A gear's two numbers are two different numbers, each named by a cell
      around the same '*'. */
  lemma GearNumbers(lines: seq<string>, i: nat) returns (j: nat)
    requires i < |BoardOf(lines).adjacent|
    requires BoardOf(lines).adjacent[i].0 == '*' && |BoardOf(lines).adjacent[i].1| == 2
    ensures var listed, size := BoardOf(lines).adjacent[i].1, |lines|;
      && j < |Symbols(lines)| && Symbols(lines)[j].1 == '*'
      && listed[0] != listed[1]
      && listed == Adjacent(Fill(lines, size), size, Symbols(lines)[j].0)
  {
    var size := |lines|;
    SymbolsOnRows(lines);
    j := AdjacencySound(Fill(lines, size), size, Symbols(lines), i);
    CollectDistinct(Fill(lines, size), size, Symbols(lines)[j].0, Window(size, Symbols(lines)[j].0));
  }
}
