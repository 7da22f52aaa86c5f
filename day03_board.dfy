/** Day 3, `process_board`: for every symbol, the distinct numbers named by
    the cells around it, found by scanning its neighbourhood column by
    column. */
module Day03Board {
  import opened Common
  import opened Day03
  import opened Day03Parse
  import opened Day03Cells

  /** `v.saturating_sub(1)`, the lower end of a neighbourhood; the
      `max(_, 0)` around it changes nothing. */
  function Low(v: nat): nat
  {
    if v >= 1 then v - 1 else 0
  }

  /** `min(v + 1, size - 1)`, the upper end of a neighbourhood. */
  function High(v: nat, size: nat): nat
    requires size >= 1
  {
    if v + 1 <= size - 1 then v + 1 else size - 1
  }

  /** The cells `(x, lo)` to `(x, hi)`. */
  function Column(x: nat, lo: nat, hi: nat): seq<(nat, nat)>
    decreases hi + 1 - lo
  {
    if lo > hi then [] else [(x, lo)] + Column(x, lo + 1, hi)
  }

  /** The cells of `x_range.flat_map(|x| y_range.map(|y| (x, y)))`, column
      by column. */
  function Pairs(xlo: nat, xhi: nat, ylo: nat, yhi: nat): seq<(nat, nat)>
    decreases xhi + 1 - xlo
  {
    if xlo > xhi then [] else Column(xlo, ylo, yhi) + Pairs(xlo + 1, xhi, ylo, yhi)
  }

  lemma {:induction false} ColumnHas(x: nat, lo: nat, hi: nat, p: (nat, nat))
    ensures p in Column(x, lo, hi) <==> p.0 == x && lo <= p.1 <= hi
    decreases hi + 1 - lo
  {
    if lo <= hi {
      ColumnHas(x, lo + 1, hi, p);
    }
  }

  lemma {:induction false} PairsHas(xlo: nat, xhi: nat, ylo: nat, yhi: nat, p: (nat, nat))
    ensures p in Pairs(xlo, xhi, ylo, yhi) <==> xlo <= p.0 <= xhi && ylo <= p.1 <= yhi
    decreases xhi + 1 - xlo
  {
    if xlo <= xhi {
      ColumnHas(xlo, ylo, yhi, p);
      PairsHas(xlo + 1, xhi, ylo, yhi, p);
    }
  }

  /** The neighbourhood of a symbol the source scans, its own cell included. */
  function Window(size: nat, at: Coord): seq<(nat, nat)>
    requires size >= 1
  {
    Pairs(Low(at.x), High(at.x, size), Low(at.y), High(at.y, size))
  }

  /** Cell `(x, y)` is one of the up to eight cells around `at` that lie
      in the square. */
  predicate Around(size: nat, at: Coord, x: nat, y: nat)
  {
    && x < size && y < size && (x != at.x || y != at.y)
    && at.x <= x + 1 && x <= at.x + 1 && at.y <= y + 1 && y <= at.y + 1
  }

  /** The scanned neighbourhood, less the symbol's own cell, is exactly the
      cells around the symbol. */
  lemma WindowAround(size: nat, at: Coord, x: nat, y: nat)
    requires size >= 1
    ensures (x, y) in Window(size, at) && (x != at.x || y != at.y) <==> Around(size, at, x, y)
  {
    PairsHas(Low(at.x), High(at.x, size), Low(at.y), High(at.y, size), (x, y));
  }

  /** Every scanned cell is inside the square. */
  lemma WindowInside(size: nat, at: Coord, i: nat)
    requires size >= 1 && i < |Window(size, at)|
    ensures Window(size, at)[i].0 < size && Window(size, at)[i].1 < size
  {
    var p := Window(size, at)[i];
    PairsHas(Low(at.x), High(at.x, size), Low(at.y), High(at.y, size), p);
  }

  /** The distinct indices the cells `cells` name, other than the symbol's
      own cell, in the order first met: what the loop of `process_board`
      pushes onto `adjacent_numbers`. */
  function Collect(d: seq<Option<nat>>, size: nat, at: Coord, cells: seq<(nat, nat)>): seq<nat>
  {
    if cells == [] then []
    else
      var acc := Collect(d, size, at, cells[..|cells| - 1]);
      var p := cells[|cells| - 1];
      var cell := Cell(d, size, p.0, p.1);
      if (p.0 == at.x && p.1 == at.y) || cell.None? || cell.value in acc then acc
      else acc + [cell.value]
  }

  /** No index is listed twice. */
  predicate Distinct(s: seq<nat>)
  {
    forall i, j :: 0 <= i < j < |s| ==> s[i] != s[j]
  }

  lemma {:induction false} CollectDistinct(d: seq<Option<nat>>, size: nat, at: Coord, cells: seq<(nat, nat)>)
    ensures Distinct(Collect(d, size, at, cells))
    decreases |cells|
  {
    if cells != [] {
      CollectDistinct(d, size, at, cells[..|cells| - 1]);
    }
  }

  /** Every index listed is named by a cell other than the symbol's, at the
      position returned. */
  lemma {:induction false} CollectSound(d: seq<Option<nat>>, size: nat, at: Coord, cells: seq<(nat, nat)>, k: nat)
    returns (j: nat)
    requires k in Collect(d, size, at, cells)
    ensures j < |cells| && (cells[j].0 != at.x || cells[j].1 != at.y)
    ensures Cell(d, size, cells[j].0, cells[j].1) == Some(k)
    decreases |cells|
  {
    var init := cells[..|cells| - 1];
    if k in Collect(d, size, at, init) {
      j := CollectSound(d, size, at, init, k);
      assert init[j] == cells[j];
    } else {
      j := |cells| - 1;
    }
  }

  /** Every index named by a cell other than the symbol's is listed. */
  lemma {:induction false} CollectComplete(d: seq<Option<nat>>, size: nat, at: Coord, cells: seq<(nat, nat)>, j: nat)
    requires j < |cells| && (cells[j].0 != at.x || cells[j].1 != at.y)
    requires Cell(d, size, cells[j].0, cells[j].1).Some?
    ensures Cell(d, size, cells[j].0, cells[j].1).value in Collect(d, size, at, cells)
    decreases |cells|
  {
    var init := cells[..|cells| - 1];
    if j < |init| {
      assert init[j] == cells[j];
      CollectComplete(d, size, at, init, j);
    }
  }

  /** The numbers adjacent to a symbol: the distinct indices named by the
      cells around it. */
  function Adjacent(d: seq<Option<nat>>, size: nat, at: Coord): seq<nat>
    requires size >= 1
  {
    Collect(d, size, at, Window(size, at))
  }

  /** Each index adjacent to a symbol is named by a cell around it, the one
      returned. */
  lemma AdjacentSound(d: seq<Option<nat>>, size: nat, at: Coord, k: nat) returns (x: nat, y: nat)
    requires size >= 1 && k in Adjacent(d, size, at)
    ensures Around(size, at, x, y) && Cell(d, size, x, y) == Some(k)
  {
    var cells := Window(size, at);
    var j := CollectSound(d, size, at, cells, k);
    x, y := cells[j].0, cells[j].1;
    WindowAround(size, at, x, y);
  }

  /** Each index named by a cell around a symbol is adjacent to it. */
  lemma AdjacentComplete(d: seq<Option<nat>>, size: nat, at: Coord, x: nat, y: nat)
    requires size >= 1 && Around(size, at, x, y) && Cell(d, size, x, y).Some?
    ensures Cell(d, size, x, y).value in Adjacent(d, size, at)
  {
    var cells := Window(size, at);
    WindowAround(size, at, x, y);
    var j :| 0 <= j < |cells| && cells[j] == (x, y);
    CollectComplete(d, size, at, cells, j);
  }

  /** One more cell of the neighbourhood: its index is listed unless it is
      the symbol's own cell, empty, or already listed. */
  lemma CollectStep(d: seq<Option<nat>>, size: nat, at: Coord, cells: seq<(nat, nat)>, i: nat)
    requires i < |cells|
    ensures var acc, p := Collect(d, size, at, cells[..i]), cells[i];
      var cell := Cell(d, size, p.0, p.1);
      Collect(d, size, at, cells[..i + 1]) ==
        if (p.0 == at.x && p.1 == at.y) || cell.None? || cell.value in acc then acc else acc + [cell.value]
  {
    assert cells[..i + 1][..i] == cells[..i];
  }

  /** `digits[y * size + x]`, a cell inside the square. */
  method ReadCell(digits: array<Option<nat>>, size: nat, x: nat, y: nat) returns (cell: Option<nat>)
    requires x < size && y < size && digits.Length == size * size
    ensures cell == Cell(digits[..], size, x, y)
  {
    CellInRange(y, x, size);
    cell := digits[y * size + x];
  }

  /** The loop of `process_board` for one symbol: scans the neighbourhood
      and pushes each index not yet listed. */
  method AdjacentNumbers(digits: array<Option<nat>>, size: nat, at: Coord) returns (adjacent: seq<nat>)
    requires size >= 1 && digits.Length == size * size
    ensures adjacent == Adjacent(digits[..], size, at)
  {
    var cells := Window(size, at);
    ghost var d := digits[..];
    adjacent := [];
    for i := 0 to |cells|
      invariant adjacent == Collect(d, size, at, cells[..i])
    {
      var x, y := cells[i].0, cells[i].1;
      CollectStep(d, size, at, cells, i);
      if x != at.x || y != at.y {
        WindowInside(size, at, i);
        var number := ReadCell(digits, size, x, y);
        if number.Some? && number.value !in adjacent {
          adjacent := adjacent + [number.value];
        }
      }
    }
    assert cells[..|cells|] == cells;
  }

  /** Every symbol lies on a row of the square. */
  predicate OnRows(symbols: seq<(Coord, char)>, size: nat)
  {
    forall j :: 0 <= j < |symbols| ==> symbols[j].0.y < size
  }

  /** The symbols with at least one adjacent number, each with those
      numbers' indices. */
  function Adjacency(d: seq<Option<nat>>, size: nat, symbols: seq<(Coord, char)>): seq<(char, seq<nat>)>
    requires OnRows(symbols, size)
  {
    if symbols == [] then []
    else
      var s := symbols[|symbols| - 1];
      var adjacent := Adjacent(d, size, s.0);
      Adjacency(d, size, symbols[..|symbols| - 1]) + (if adjacent != [] then [(s.1, adjacent)] else [])
  }

  /** Each entry belongs to a symbol, the one returned: its character and
      the indices adjacent to it, of which there is at least one. */
  lemma {:induction false} AdjacencySound(d: seq<Option<nat>>, size: nat, symbols: seq<(Coord, char)>, i: nat)
    returns (j: nat)
    requires OnRows(symbols, size) && i < |Adjacency(d, size, symbols)|
    ensures j < |symbols| && size >= 1
    ensures Adjacency(d, size, symbols)[i] == (symbols[j].1, Adjacent(d, size, symbols[j].0))
    ensures Adjacency(d, size, symbols)[i].1 != []
    decreases |symbols|
  {
    var init := symbols[..|symbols| - 1];
    if i < |Adjacency(d, size, init)| {
      j := AdjacencySound(d, size, init, i);
      assert init[j] == symbols[j];
    } else {
      j := |symbols| - 1;
    }
  }

  /** Each symbol with an adjacent number has an entry, the one returned. */
  lemma {:induction false} AdjacencyComplete(d: seq<Option<nat>>, size: nat, symbols: seq<(Coord, char)>, j: nat)
    returns (i: nat)
    requires OnRows(symbols, size) && j < |symbols| && size >= 1
    requires Adjacent(d, size, symbols[j].0) != []
    ensures i < |Adjacency(d, size, symbols)|
    ensures Adjacency(d, size, symbols)[i] == (symbols[j].1, Adjacent(d, size, symbols[j].0))
    decreases |symbols|
  {
    var init := symbols[..|symbols| - 1];
    if j < |init| {
      assert init[j] == symbols[j];
      i := AdjacencyComplete(d, size, init, j);
    } else {
      i := |Adjacency(d, size, init)|;
    }
  }

  /** What `process_board` returns. */
  datatype Board = Board(numbers: seq<nat>, adjacent: seq<(char, seq<nat>)>)

  /** The symbols of a schematic lie on its lines. */
  lemma SymbolsOnRows(lines: seq<string>)
    ensures OnRows(Symbols(lines), |lines|)
  {
    forall j | 0 <= j < |Symbols(lines)|
      ensures Symbols(lines)[j].0.y < |lines|
    {
      SymbolsOnLines(lines, j);
    }
  }

  /** The board `process_board` builds from a schematic that reads. */
  function BoardOf(lines: seq<string>): Board
  {
    SymbolsOnRows(lines);
    Board(Numbers(lines), Adjacency(Fill(lines, |lines|), |lines|, Symbols(lines)))
  }

  /** The loop of `process_board` over the symbols: keeps each symbol that
      has an adjacent number, with the indices of those numbers. */
  method AdjacencyOf(digits: array<Option<nat>>, size: nat, symbols: seq<(Coord, char)>)
    returns (adjacent: seq<(char, seq<nat>)>)
    requires digits.Length == size * size && OnRows(symbols, size)
    ensures adjacent == Adjacency(digits[..], size, symbols)
  {
    adjacent := [];
    for j := 0 to |symbols|
      invariant adjacent == Adjacency(digits[..], size, symbols[..j])
    {
      assert symbols[..j + 1][..j] == symbols[..j];
      var numbersHere := AdjacentNumbers(digits, size, symbols[j].0);
      if numbersHere != [] {
        adjacent := adjacent + [(symbols[j].1, numbersHere)];
      }
    }
    assert symbols[..|symbols|] == symbols;
  }

  /** `process_board`: `None` where `parse_input` panics. */
  method ProcessBoard(input: string) returns (b: Option<Board>)
    ensures b.None? <==> !Fits(Lines(input), |Lines(input)|, |Lines(input)|)
    ensures b.Some? ==> b.value == BoardOf(Lines(input))
  {
    var raw := ParseInput(input);
    if raw.None? {
      return None;
    }
    SymbolsOnRows(Lines(input));
    var adjacent := AdjacencyOf(raw.value.digits, raw.value.size, raw.value.symbols);
    b := Some(Board(raw.value.numbers, adjacent));
  }
}
