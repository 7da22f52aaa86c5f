# Advent of Code 2022 and 2023 solutions, modelled in Dafny

This project models the solutions under `src/solutions/` of a Rust crate of
Advent of Code answers: every day from 1 to 25 except day 6. Days 2, 4, 5, 8,
10, 16, 18, 21, 23, 24 and 25 are puzzles of 2022; the others are puzzles of
2023. Each day's
`part_one` and `part_two` read the puzzle text and compute a number. The model
keeps each day's parsing, its intermediate data and its algorithm. It proves
what the results mean against independent definitions of the puzzle.

Layout:

- `common.dfy` (module `Common`) holds what the days share: `Option`, line
  and word splitting, and integer parsing as Rust's `str::parse` does it,
  including the range check of the target integer type.
- `grids.dfy` (module `Grids`) models the rectangular grid of the `grid`
  crate that days 13 and 14 use. `num_integer.dfy` (module `NumInteger`)
  gives the least common multiple of `num::integer::lcm`.
- Day `NN` is `dayNN.dfy` (module `DayNN`). A day whose proofs are large is
  split further: `dayNN_<part>.dfy` holds module `DayNN<Part>`, for example
  `day20_circuit.dfy` holds module `Day20Circuit`.
- Code that computes values is modelled by datatypes and functions. Code that
  updates state in a loop is modelled by methods with loop invariants. The
  source's objects with mutable fields are classes: the day 15 lens boxes,
  the day 20 circuit and the day 22 universe. Each method is proved against
  a specification function, and the lemmas are proved about that function.

Conventions:

- A panic (`unwrap`, `expect`, `assert!`, an index out of range, an integer
  underflow) becomes `None` or `false` where it depends on the input being
  read. It becomes a `requires` where the input format rules it out.
- Integers are unbounded. A Rust integer width is written out only where the
  row says so: the `u32` galaxy scan of day 11, the checked `i64` arithmetic
  of day 21, the `u32` hash of day 15 and the `u64` limits of parsing.
- The iteration order of a `HashMap` or `HashSet` becomes a parameter or a
  free choice (`:|`). The lemmas state only facts that hold for every order.
- A loop that has no bound in the source takes a `fuel` parameter. Running
  out of fuel is a distinct outcome. This covers the searches of days 16, 17
  and 24, the workflows of day 19, the button presses of day 20 and the
  rounds of day 23.
- Where the puzzle text and the code differ, the model follows the code. For
  example, day 20 does not create modules for names that only appear as
  targets.

## Model

| member | source | states |
|---|---|---|
| Day01.NoDigits | src/solutions/day01.rs:5-15 | a line yields no digit exactly when it holds no ASCII digit, the case in which `first.unwrap()` panics |
| Day01.LeadingDigit | src/solutions/day01.rs:5-9 | the first digit kept is the value of the leftmost ASCII digit of the line |
| Day01.TrailingDigit | src/solutions/day01.rs:5-13 | the last digit kept is the value of the rightmost ASCII digit of the line |
| Day01.DigitsPartOne | src/solutions/day01.rs:1-16 | the character loop returns the first and last of the line's digits, and nothing when it has none |
| Day01.CalibrationDefined | src/solutions/day01.rs:77-85 | the sum exists exactly when every line has a digit |
| Day01.CalibrationBound | src/solutions/day01.rs:77-85 | each line adds at most 99, so the total is at most 99 per line |
| Day01.CalibrationNone | src/solutions/day01.rs:77-85 | one line without digits makes the whole answer a panic |
| Day01.PartOne | src/solutions/day01.rs:77-85 | the answer is the sum over the lines of ten times the first digit plus the last, at most 99 per line |
| Day01Window.WindowHoldsLastEight | src/solutions/day01.rs:60-63 | after any bytes, the `u64` window holds exactly their last eight, the newest in the low byte |
| Day01Window.WindowStep | src/solutions/day01.rs:63 | shifting one more byte into the `u64` window gives the window of the bytes read with that byte appended |
| Day01Window.MatchIsSuffix | src/solutions/day01.rs:18-30 | masking the window to a word's length and comparing with the word's value tells exactly whether the bytes read end with that word |
| Day01Window.EndMatches | src/solutions/day01.rs:18-30 | `end_matches` is true exactly when the window's low bytes equal the word packed right-aligned |
| Day01Window.WordIsBytes | src/solutions/day01.rs:36-58 | each number word is compared as its ASCII bytes |
| Day01Window.CompletesUnique | src/solutions/day01.rs:36-58 | one byte completes at most one digit, so the order of the tests in `get_digit` does not matter |
| Day01Window.DetectExactly | src/solutions/day01.rs:36-58 | a byte reports digit `d` exactly when it is the character of `d` or ends the spelling of `d`, overlapping words included |
| Day01Window.DigitTest | src/solutions/day01.rs:37-54 | one test of `get_digit` is true exactly when the byte completes that digit |
| Day01Window.GetDigit | src/solutions/day01.rs:36-58 | the closure reports the digit the byte completes, or nothing |
| Day01Window.ReadByte | src/solutions/day01.rs:62-71 | one loop step updates the window and keeps first and last in step with the digits found so far |
| Day01Window.DigitsPartTwo | src/solutions/day01.rs:32-75 | the byte loop returns the first and last digits found, and nothing when none is |
| Day01Window.FoundDigits | src/solutions/day01.rs:36-58 | every digit found is one to nine |
| Day01Window.FoundGrows | src/solutions/day01.rs:62-71 | a byte that completes a digit appends exactly that digit, even inside an overlap such as "eightwo" |
| Day01Window.FoundStays | src/solutions/day01.rs:62-71 | a byte that completes no digit leaves the digits found unchanged |
| Day01Window.PartTwo | src/solutions/day01.rs:87-95 | the answer is the sum over the lines of ten times the first found digit plus the last, a panic when a line has none |
| Day01Window.PartTwoBound | src/solutions/day01.rs:87-95 | part two's total is at most 99 per line |
| Day02.MovePoints | src/solutions/day02.rs:22-28 | a shape scores 1, 2 or 3 |
| Day02.WinnerPoints | src/solutions/day02.rs:50-56 | an outcome scores 0, 3 or 6 |
| Day02.BeatsCycle | src/solutions/day02.rs:30-36 | `beats` is a three-cycle: no move defeats itself and three steps come back |
| Day02.WinnerMeaning | src/solutions/day02.rs:38-46 | `winner` is `Player` exactly when the receiver defeats the other move, `Opponent` exactly when the other move defeats it, `Draw` exactly on equal moves |
| Day02.WinnerSwap | src/solutions/day02.rs:38-46 | exchanging the two moves exchanges `Player` and `Opponent` and keeps a draw |
| Day02.ParseRound | src/solutions/day02.rs:67-85 | a line gives a round exactly when it splits at a space, with the opponent's letter before it and the player's after |
| Day02.ReadRounds | src/solutions/day02.rs:64-88 | one round per line, in order, and `None` exactly when some line has no space |
| Day02.PartOneRound | src/solutions/day02.rs:90-99 | the intended first-part score: the shape plus 6 for a win, 3 for a draw, 0 for a loss, judged from the player's side |
| Day02.AsWrittenInvertsOutcome | src/solutions/day02.rs:98 | the score as written, `opponent.winner(player)`, gives a loss the points of a win and a win those of a loss; draws agree |
| Day02.AsWrittenCounterexample | src/solutions/day02.rs:98 | the round "A Z" is a loss worth 3 but scores 9 as written |
| Day02.WrittenPlusIntended | src/solutions/day02.rs:90-102 | over any rounds the written and intended totals add up to twice the shape points plus six per round |
| Day02.ChooseMove | src/solutions/day02.rs:112-116 | the move `part_two` plays reaches the asked outcome against the opponent |
| Day02.ChooseMoveUnique | src/solutions/day02.rs:112-116 | no other move reaches that outcome |
| Day02.PartTwoRound | src/solutions/day02.rs:105-119 | the second-part score is the shape of any move that reaches the asked outcome plus the outcome's points |
| Day02.ExampleScores | src/solutions/day02.rs:127-140 | the example rounds score 15 both as written and as intended, and 12 in the second part |
| Day03.RunsOfDigits | src/solutions/day03.rs:44-51 | a run of digits alone reads as one number, its decimal value |
| Day03.SnocOther | src/solutions/day03.rs:54-57 | a character that is not a digit adds no number |
| Day03.SnocExtend | src/solutions/day03.rs:47-50 | a digit right after a digit extends the last number by one decimal place |
| Day03.SnocStart | src/solutions/day03.rs:47-50 | a digit after a separator or at the start of a line starts a new number |
| Day03.RunsSplit | src/solutions/day03.rs:54-57 | a character that is not a digit separates the numbers on its left from those on its right |
| Day03.RunNumber | src/solutions/day03.rs:42-66 | every digit of a maximal run counts the same numbers up to itself, and the number at that place is the run's decimal reading |
| Day03Cells.CellInRange | src/solutions/day03.rs:52 | entry `y * size + x` of the `size * size` table is inside it for `x, y < size` |
| Day03Cells.SquareFits | src/solutions/day03.rs:28-52 | on a square schematic no digit's entry falls past the table |
| Day03Cells.DigitCell | src/solutions/day03.rs:39-67 | on a square schematic the cell of every digit names the count of numbers up to and including its run, less one |
| Day03Cells.RunCell | src/solutions/day03.rs:39-67 | every digit of one maximal run names one and the same number, and that number is the run's decimal reading |
| Day03Cells.FillBelow | src/solutions/day03.rs:52 | every index in the cell table names a number that exists |
| Day03Cells.SymbolsOnLines | src/solutions/day03.rs:58-60 | every symbol lies on one of the lines |
| Day03Parse.ScanChar | src/solutions/day03.rs:43-62 | one character: a digit extends or starts the current number and marks its cell; anything else ends the number and is a symbol unless it is '.'; a cell past the table is the panic |
| Day03Parse.ScanLine | src/solutions/day03.rs:39-67 | one line adds exactly its numbers, its symbols and its cells, and fails exactly when a digit's cell lies past the table |
| Day03Parse.LinesStep | src/solutions/day03.rs:39-67 | one line more adds its numbers, its symbols and its cells to those of the lines before |
| Day03Parse.ParseLines | src/solutions/day03.rs:25-75 | the board read from the lines holds their numbers, symbols and cell table, sized by the line count; `None` exactly when a digit's cell lies past the table |
| Day03Parse.ParseInput | src/solutions/day03.rs:25-75 | `parse_input` reads the input's lines into that board, or panics exactly then |
| Day03Board.WindowAround | src/solutions/day03.rs:91-100 | the scanned ranges, less the symbol's own cell, are exactly the cells around the symbol inside the square |
| Day03Board.CollectDistinct | src/solutions/day03.rs:102-107 | the `contains` check keeps each index once |
| Day03Board.CollectSound | src/solutions/day03.rs:97-107 | every index listed is named by a cell of the neighbourhood other than the symbol's |
| Day03Board.CollectComplete | src/solutions/day03.rs:97-107 | every index named by such a cell is listed |
| Day03Board.AdjacentSound | src/solutions/day03.rs:89-108 | each index adjacent to a symbol is named by a cell around it |
| Day03Board.AdjacentComplete | src/solutions/day03.rs:89-108 | each index named by a cell around a symbol is adjacent to it |
| Day03Board.ReadCell | src/solutions/day03.rs:102 | reading `digits[y * size + x]` inside the square gives the cell |
| Day03Board.AdjacentNumbers | src/solutions/day03.rs:89-108 | the loop for one symbol lists exactly the distinct indices named around it, in scan order |
| Day03Board.AdjacencySound | src/solutions/day03.rs:110-112 | each entry belongs to a symbol, carries its character and its adjacent indices, and lists at least one |
| Day03Board.AdjacencyComplete | src/solutions/day03.rs:110-112 | each symbol with an adjacent number has an entry |
| Day03Board.AdjacencyOf | src/solutions/day03.rs:86-113 | the loop over the symbols keeps exactly the symbols with adjacent numbers, with those numbers |
| Day03Board.ProcessBoard | src/solutions/day03.rs:77-119 | `process_board` gives the board of the schematic, and panics exactly where `parse_input` does |
| Day03Parts.TouchedSound | src/solutions/day03.rs:129-133 | an index flagged is listed by some entry |
| Day03Parts.PartSound | src/solutions/day03.rs:121-141 | a part number is named by a cell around some symbol |
| Day03Parts.PartComplete | src/solutions/day03.rs:121-141 | a number named by a cell around a symbol is a part number |
| Day03Parts.PartSumAdd | src/solutions/day03.rs:135-140 | each part number counts once: one more index adds its number once |
| Day03Parts.BoardIndices | src/solutions/day03.rs:131-139 | the board's entries name only numbers that exist, so the indexing does not panic |
| Day03Parts.MarkParts | src/solutions/day03.rs:127-133 | a flag is set exactly for the indices some entry lists |
| Day03Parts.SumFlagged | src/solutions/day03.rs:135-140 | the filtered sum is the sum of the numbers whose index is flagged |
| Day03Parts.PartOne | src/solutions/day03.rs:121-141 | the answer is the sum of the numbers some entry lists, each once; a panic exactly where parsing panics |
| Day03Parts.AddRatios | src/solutions/day03.rs:149-164 | the loop adds the product of the two numbers of every '*' entry with exactly two |
| Day03Parts.PartTwo | src/solutions/day03.rs:143-165 | the answer is the sum of the gear ratios of the board; a panic exactly where parsing panics |
| Day03Parts.GearNumbers | src/solutions/day03.rs:151-159 | a gear's two numbers are different numbers, both adjacent to the same '*' |
| Day04.InclusiveMeaning | src/solutions/day04.rs:7-9 | `a` contains `b` exactly when every section of `b` is a section of `a` |
| Day04.OverlapsSymmetric | src/solutions/day04.rs:11-14 | overlapping does not depend on the order of the two ranges |
| Day04.OverlapsMeaning | src/solutions/day04.rs:11-14 | for well-formed ranges, overlapping means sharing a section, the two-sided interval test |
| Day04.InclusiveOverlaps | src/solutions/day04.rs:7-14 | a containment either way implies an overlap |
| Day04.ParsePair | src/solutions/day04.rs:20-29 | the pair's four numbers are the `u32` readings of the fields around ',' and the two '-' |
| Day04.ReadElves | src/solutions/day04.rs:17-32 | one pair per line, in order |
| Day04.ContainedAtMostOverlapping | src/solutions/day04.rs:34-46 | among well-formed pairs, the containment count never exceeds the overlap count |
| Day04.PartOneAtMostPartTwo | src/solutions/day04.rs:34-46 | part one's answer is at most part two's for well-formed ranges |
| Day04.AllFields | src/solutions/day04.rs:52-57 | `solve` takes the four text fields of every line |
| Day04.TallyText | src/solutions/day04.rs:58-69 | the written fold counts each line at most once in each tally |
| Day04.SolveAsWrittenCounterexample | src/solutions/day04.rs:60 | the line "5-10,6-9" has 6-9 inside 5-10, but the text comparison of `solve` does not count it |
| Day04.TallyIsBothCounts | src/solutions/day04.rs:58-69 | the one-pass fold counts exactly what the two filters count |
| Day04.SolveIsBothParts | src/solutions/day04.rs:49-70 | `solve` with numeric comparisons returns the answers of both parts |
| Day04.OneDigitOrder | src/solutions/day04.rs:60-65 | for one-character numerals text order is number order |
| Day04.SingleDigitsAgree | src/solutions/day04.rs:49-70 | when every field is one character the written `solve` agrees with both parts, which is why the example passes |
| Day05.BayItem | src/solutions/day05.rs:13-20 | an item is three characters: a bracketed letter is a crate, three spaces no crate; the rest of the input follows |
| Day05.BayLine | src/solutions/day05.rs:22-24 | a row of the drawing has at least one item and consumes input |
| Day05.ReadInstruction | src/solutions/day05.rs:71-79 | an instruction consumes input and leaves the rest after the last number |
| Day05.Instructions | src/solutions/day05.rs:89 | the procedure has at least one instruction |
| Day05.BayItemExample | src/solutions/day05.rs:141 | `[A]` reads as the crate A with nothing left |
| Day05.BayLineExample | src/solutions/day05.rs:142-145 | `[N] [C]    ` reads as the crates N and C and an empty third column |
| Day05.ItemRoundTrip | src/solutions/day05.rs:13-20 | an item is read back from its drawing, whatever follows |
| Day05.LineRoundTrip | src/solutions/day05.rs:22-24 | a row of crates is read back from its drawing, whatever line follows |
| Day05.InstructionRoundTrip | src/solutions/day05.rs:71-79 | an instruction is read back from its text when no digit follows |
| Day05Crane.AddRow | src/solutions/day05.rs:40-51 | the first row makes one stack per column, and a row's crates go onto their columns, columns past the stacks being dropped as `zip` drops them |
| Day05Crane.StackColumns | src/solutions/day05.rs:31-52 | pushing the rows top first gives one stack per column of the first row, holding that column's crates from the top row down |
| Day05Crane.ReadBayColumns | src/solutions/day05.rs:26-63 | after the reversal each stack holds its column's crates bottom first, so the crate drawn highest is the top of its stack |
| Day05Crane.PushRow | src/solutions/day05.rs:40-51 | the loop for one row builds the stacks `AddRow` describes |
| Day05Crane.ReverseStacks | src/solutions/day05.rs:53-56 | the in-place reversal turns every stack upside down |
| Day05Crane.ReadBay | src/solutions/day05.rs:26-63 | `read_bay` reads rows until the line of stack numbers and returns the stacks, each bottom first, with the input after that line |
| Day05Crane.ReadInput | src/solutions/day05.rs:86-92 | the bay, a newline, then at least one instruction per line; `None` where a parser fails |
| Day05Crane.SinglyMoves | src/solutions/day05.rs:110-115 | the 9000 between distinct stacks takes `count` crates off the top of `from` and puts them on `to` in reverse order, every other stack unchanged; a panic when `from` holds fewer |
| Day05Crane.SinglyInPlace | src/solutions/day05.rs:110-115 | the 9000 moving within one stack leaves it as it was unless the stack is empty |
| Day05Crane.LiftDistinct | src/solutions/day05.rs:126-130 | the 9001 between distinct stacks moves the top `count` crates onto `to` as one block, in their order |
| Day05Crane.LiftInPlace | src/solutions/day05.rs:126-130 | the 9001 within one stack puts the block back where it was |
| Day05Crane.CranesFailTogether | src/solutions/day05.rs:110-130 | between distinct stacks the two cranes panic on the same instructions |
| Day05Crane.CranesAgree | src/solutions/day05.rs:110-130 | where the 9001 succeeds the 9000 ends with the same stacks except that the carried block lies upside down on `to` |
| Day05Crane.LiftConserves | src/solutions/day05.rs:126-130 | the 9001 keeps the number of crates and touches no stack but `from` and `to` |
| Day05Crane.SinglyConserves | src/solutions/day05.rs:110-115 | the 9000 keeps the number of crates and touches no stack but `from` and `to` |
| Day05Crane.RunsConserve | src/solutions/day05.rs:104-133 | neither crane gains or loses a crate or a stack over a whole procedure |
| Day05Crane.MoveCrates | src/solutions/day05.rs:111-114 | the pop-and-push loop of one instruction is the 9000's move |
| Day05Crane.TopsSpec | src/solutions/day05.rs:94-102 | the output holds the top crate of every stack, left to right, and exists exactly when no stack is empty |
| Day05Crane.GetOutput | src/solutions/day05.rs:94-102 | `get_output` returns those tops, a panic on an empty stack |
| Day05Crane.PartOne | src/solutions/day05.rs:104-118 | the answer is the tops after the 9000 runs the whole procedure, a panic wherever the input does not parse or a move fails |
| Day05Crane.PartTwo | src/solutions/day05.rs:120-133 | the answer is the tops after the 9001 runs the whole procedure, a panic wherever the input does not parse or a move fails |
| Day07.Rank | src/solutions/day07.rs:3-18 | the thirteen cards take thirteen places in the declaration order |
| Day07.RankInjective | src/solutions/day07.rs:3-18 | two cards have the same place exactly when they are the same card |
| Day07.CardRoundTrip | src/solutions/day07.rs:21-38 | every card is read back from its letter, and only the thirteen card letters are read at all |
| Day07.LexFlip | src/solutions/day07.rs:45-60 | the card-by-card comparison flips when its arguments swap |
| Day07.LexEqual | src/solutions/day07.rs:45-60 | the card-by-card comparison says `Equal` exactly on equal keys |
| Day07.LexTransitive | src/solutions/day07.rs:45-60 | the card-by-card comparison is transitive |
| Day07.KeysInjective | src/solutions/day07.rs:41-60 | both the plain and the joker key tell hands apart |
| Day07.CardJokerOrder | src/solutions/day07.rs:47-52 | one pair of cards compares by rank with the Jack below every other card |
| Day07.JokerOrder | src/solutions/day07.rs:45-60 | `joker_order` is decided by the first pair of cards that differ, the Jack being the lowest card |
| Day07.PlainPattern | src/solutions/day07.rs:112-152 | without jokers the type follows the count pattern: 5, 4, 3+2, 3, 2+2, 2, or all different |
| Day07.JokersJoinLargest | src/solutions/day07.rs:112-152 | a hand with jokers has the type of the plain hand whose largest count absorbs them, so the two-requirement formulas are right |
| Day07.JokersNeverHurt | src/solutions/day07.rs:112-152 | jokers never make a hand weaker |
| Day07.SortCardsSorted | src/solutions/day07.rs:83 | sorting the cards keeps the same cards and orders them by rank |
| Day07.ScanSum | src/solutions/day07.rs:91-103 | the counting loop counts every card that is not a joker exactly once |
| Day07.SortDownSorted | src/solutions/day07.rs:105-106 | sorting and reversing keeps the same counts, largest first |
| Day07.HistogramFacts | src/solutions/day07.rs:82-109 | the histogram has five counts, largest first, adding up with the jokers to five; the jokers are the Jacks when playing with jokers and none otherwise |
| Day07.CountRuns | src/solutions/day07.rs:85-103 | the loop puts each run of equal non-joker cards into the next slot and counts the jokers apart |
| Day07.GetHistogram | src/solutions/day07.rs:82-109 | `get_histogram` returns the sorted run counts and the joker count |
| Day07.FromCards | src/solutions/day07.rs:112-152 | the type read from the histogram and the jokers |
| Day07.TypeJokersJoin | src/solutions/day07.rs:112-152 | a hand's jokers count as more of its most frequent card |
| Day07Game.HandOf | src/solutions/day07.rs:176-183 | a built hand keeps its cards, bet and mode, with the type of its cards |
| Day07Game.StrengthInjective | src/solutions/day07.rs:71-80 | the discriminants of the types are distinct |
| Day07Game.CompareFlip | src/solutions/day07.rs:161-173 | within one game, swapping the hands flips the comparison |
| Day07Game.CompareEqual | src/solutions/day07.rs:161-173 | two hands of one game compare equal exactly when they hold the same cards in the same order |
| Day07Game.CompareTransitive | src/solutions/day07.rs:161-173 | within one game the order is transitive |
| Day07Game.SortHandsRanked | src/solutions/day07.rs:209 | the sort ranks the same hands, weakest first |
| Day07Game.InsertHandStable | src/solutions/day07.rs:209 | a hand inserted into a ranked list goes in front of the hands that hold the same cards |
| Day07Game.SortHandsStable | src/solutions/day07.rs:209 | `sort` is stable: the hands that hold any given cards come out in their input order |
| Day07Game.EqualHandsInOrder | src/solutions/day07.rs:204-216 | of two hands with the same cards the first is ranked 1 and the second 2, so the winnings are its bet plus twice the other's |
| Day07Game.CardsOf | src/solutions/day07.rs:192-196 | five letters read into cards exactly when each is a card letter |
| Day07Game.LineOf | src/solutions/day07.rs:187-200 | a line gives five cards and a bet that fits a `usize`, and fails where `parse_input` panics |
| Day07Game.CardsTextRoundTrip | src/solutions/day07.rs:192-196 | cards are read back from their letters |
| Day07Game.LineRoundTrip | src/solutions/day07.rs:186-202 | every five-card hand with a bet that fits a `usize` is read back from its line |
| Day07Game.HandsOf | src/solutions/day07.rs:205-207 | one hand per line, all of the same mode |
| Day07Game.BuildHands | src/solutions/day07.rs:205-207 | the loop builds one hand per line with `Hand::new` |
| Day07Game.TotalWinnings | src/solutions/day07.rs:211-215 | the sum of rank times bet over the ranked hands |
| Day07Game.Solve | src/solutions/day07.rs:204-216 | the answer is the winnings of the hands ranked weakest first by the stable sort, equal hands in input order, cut to its low 32 bits by `as u32` |
| Day08.ReadRow | src/solutions/day08.rs:5-7 | a line reads as one height per character, each below ten, and fails on a character that is not a digit |
| Day08.ReadRows | src/solutions/day08.rs:1-10 | one row per line |
| Day08.ParseRoundTrip | src/solutions/day08.rs:1-10 | a forest written out line by line is read back |
| Day08.Walk | src/solutions/day08.rs:23-39 | a walk visits exactly as many cells as remain before it leaves the square, all inside |
| Day08.WalkAt | src/solutions/day08.rs:34 | the `k`-th cell of a walk is `k` steps from its start |
| Day08.Highest | src/solutions/day08.rs:24-32 | `highest` is nothing before the first tree and afterwards the tallest height passed, which some tree has |
| Day08.AboveIsTaller | src/solutions/day08.rs:26 | `height > highest` on options holds exactly when the tree is taller than all before it on the walk |
| Day08.StepInside | src/solutions/day08.rs:34-38 | a walk stays inside the square for exactly the remaining steps, so the break test ends it at the edge |
| Day08.Visit | src/solutions/day08.rs:24-32 | one tree: marked when above the tallest so far, counted when the mark is new, and the tallest updated |
| Day08.MarkVisible | src/solutions/day08.rs:20-41 | `mark_visible` adds to the marks exactly the trees of the walk taller than all before them, and returns how many marks are new |
| Day08Visible.InSeen | src/solutions/day08.rs:20-41 | a cell is seen along a walk exactly when it lies on it taller than every cell before it |
| Day08Visible.SeenFromLeft | src/solutions/day08.rs:47 | the walk along a row from the left sees exactly the trees taller than all to their left |
| Day08Visible.SeenFromRight | src/solutions/day08.rs:49 | the walk along a row from the right sees exactly the trees taller than all to their right |
| Day08Visible.SeenFromAbove | src/solutions/day08.rs:50 | the walk down a column sees exactly the trees taller than all above them |
| Day08Visible.SeenFromBelow | src/solutions/day08.rs:48 | the walk up a column sees exactly the trees taller than all below them |
| Day08Visible.InRound | src/solutions/day08.rs:46-51 | round `i` marks the trees of row `i` lower to one side and of column `i` lower above or below |
| Day08Visible.MarkingStep | src/solutions/day08.rs:46-51 | each round adds to the marks exactly the trees its four walks see |
| Day08Visible.AllRounds | src/solutions/day08.rs:46-51 | after a round for every row and column the marks are exactly the visible trees |
| Day08Visible.EdgesVisible | src/solutions/day08.rs:20-51 | every tree on the edge of the square is visible |
| Day08Visible.MarkRound | src/solutions/day08.rs:47-50 | the four walks of one round mark its trees and return the number they newly mark |
| Day08Visible.CountVisible | src/solutions/day08.rs:43-53 | the total counted is the number of visible trees, each counted once |
| Day08Visible.PartOne | src/solutions/day08.rs:12-54 | the answer is the number of trees visible from some side, a panic exactly on a bad digit or a row shorter than the number of rows |
| Day08Scenic.ViewBound | src/solutions/day08.rs:59-78 | the viewing distance reaches no further than the edge and is zero exactly on the edge |
| Day08Scenic.ViewLower | src/solutions/day08.rs:59-78 | every tree the view passes before its last one is lower than the house |
| Day08Scenic.ViewStop | src/solutions/day08.rs:59-78 | a view that stops short of the edge stops at a tree at least as tall as the house |
| Day08Scenic.EdgeViewZero | src/solutions/day08.rs:62-67 | a tree on the edge sees nothing outward |
| Day08Scenic.TreesAlongAxis | src/solutions/day08.rs:59-78 | `trees_along_axis` counts the trees up to and including the first at least as tall, or to the edge |
| Day08Scenic.EdgeScoreZero | src/solutions/day08.rs:84-91 | a tree on the edge scores zero |
| Day08Scenic.ScoreAt | src/solutions/day08.rs:84-91 | the score is the product of the four viewing distances |
| Day08Scenic.MaxOption | src/solutions/day08.rs:93 | `max` on options is one of its arguments, `None` only for two `None`s, and at least each `Some` |
| Day08Scenic.BestScore | src/solutions/day08.rs:80-97 | the best score is attained by some tree and no tree scores more; none for an empty forest, where `unwrap` panics |
| Day08Scenic.PartTwo | src/solutions/day08.rs:56-98 | the answer is the highest scenic score, a panic exactly on a bad digit, a short row or no rows |
| Day09.Differentiate | src/solutions/day09.rs:9-11 | the differences are one shorter than the sequence, and empty for fewer than two values |
| Day09.IntegrateDifferentiate | src/solutions/day09.rs:9-11 | summing the differences from the first value gives the sequence back: `differentiate` loses only the first value |
| Day09.DifferentiateZero | src/solutions/day09.rs:9-11 | the differences of an all-zero line are all zero |
| Day09.NextValueStep | src/solutions/day09.rs:18-29 | the next value exceeds the last value by the next value of the differences |
| Day09.PrevValueStep | src/solutions/day09.rs:39-50 | the previous value is the first value less the previous value of the differences |
| Day09.NextValueExtends | src/solutions/day09.rs:13-32 | the differences of the extended line are the extended differences, so the new value continues every level |
| Day09.PrevValueExtends | src/solutions/day09.rs:34-53 | the same at the front of the line |
| Day09.ZeroLine | src/solutions/day09.rs:19-21 | an all-zero line extrapolates to zero at both ends |
| Day09.Levels | src/solutions/day09.rs:18-25 | none of the levels the loop visits is all zero: it stops at the first all-zero level |
| Day09.FoldLasts | src/solutions/day09.rs:27-29 | the right fold of the collected last values is the next value |
| Day09.FoldFirsts | src/solutions/day09.rs:48-50 | the alternating right fold of the collected first values is the previous value |
| Day09.ExtrapolateForward | src/solutions/day09.rs:15-30 | the loop for one line returns its next value |
| Day09.ExtrapolateBackward | src/solutions/day09.rs:36-51 | the loop for one line returns its previous value |
| Day09.Measurements | src/solutions/day09.rs:1-7 | one measurement per line |
| Day09.PartOne | src/solutions/day09.rs:13-32 | the answer is the sum of every line's next value |
| Day09.PartTwo | src/solutions/day09.rs:34-53 | the answer is the sum of every line's previous value |
| Day09.ConstantLine | src/solutions/day09.rs:13-53 | a constant line extrapolates to its constant at both ends |
| Day09.ExampleLine | src/solutions/day09.rs:63-64 | the example line 0 3 6 9 12 15 continues with 18 and starts with -3 |
| Day09.ExampleTotals | src/solutions/day09.rs:61-77 | the example's next values sum to 114 and its previous values to 2 |
| Day10.Cycles | src/solutions/day10.rs:7-12 | an instruction takes one or two cycles |
| Day10.TraceLength | src/solutions/day10.rs:41-60 | the CPU yields exactly one value per cycle of the program |
| Day10.AddXLate | src/solutions/day10.rs:41-60 | an `addx` yields the old register for both its cycles; its operand counts only from the next instruction on |
| Day10.NoopOneCycle | src/solutions/day10.rs:41-60 | a `noop` yields the register once |
| Day10.Cpu.constructor | src/solutions/day10.rs:25-32 | a new CPU has register 1, no cycles left and nothing pending, and will yield the trace of the program from 1 |
| Day10.Cpu.Next | src/solutions/day10.rs:41-60 | each call yields the next value of the trace, and `None` exactly when the trace is used up |
| Day10.PartOne | src/solutions/day10.rs:80-91 | the answer is the sum of cycle times register over cycles 20, 60, 100, and so on |
| Day10.Piece | src/solutions/day10.rs:98-108 | each cycle ends with its pixel, after a newline before every 40th pixel but the first |
| Day10.ScreenLength | src/solutions/day10.rs:97-109 | the screen has one character per cycle plus one newline per finished row of 40 |
| Day10.PartTwo | src/solutions/day10.rs:93-112 | the screen draws '#' where the sprite covers the column and '.' elsewhere, 40 pixels per row |
| Day10.ReadInstructions | src/solutions/day10.rs:63-78 | one instruction per line |
| Day10.ParseAddX | src/solutions/day10.rs:63-78 | "addx -5" reads as an `addx` of -5 |
| Day10.SmallProgram | src/solutions/day10.rs:41-60 | noop, addx 3, addx -5 runs five cycles with register values 1, 1, 1, 4, 4 |
| Day11.Count | src/solutions/day11.rs:28-42 | the number of empty lines is at most the number of lines |
| Day11.CountAppend | src/solutions/day11.rs:28-42 | counting empty lines adds up over consecutive stretches |
| Day11.Offsets | src/solutions/day11.rs:28-42 | the `scan` gives one offset per line |
| Day11.OffsetIsCount | src/solutions/day11.rs:28-42 | the offset of a line is `factor - 1` for every empty line up to and including it |
| Day11.CountBetween | src/solutions/day11.rs:28-42 | the empty lines up to a later line are those up to an earlier one plus those between |
| Day11.ExpandedGap | src/solutions/day11.rs:51-54 | expanding moves two lines apart by `factor - 1` for each empty line after the first up to the second |
| Day11.ExpandedOrder | src/solutions/day11.rs:51-54 | for a factor of at least one, lines further along stay further along |
| Day11.FactorOneStill | src/solutions/day11.rs:28-42 | with a factor of one nothing moves |
| Day11.RowFlags | src/solutions/day11.rs:19-26 | a row is flagged exactly when it holds no galaxy |
| Day11.ColFlags | src/solutions/day11.rs:18-26 | a column is flagged exactly when it holds no galaxy |
| Day11.AxisDistance | src/solutions/day11.rs:51-54 | along one axis, two moved galaxies are their first distance apart plus `factor - 1` per empty line between them |
| Day11.OffsetsPrefix | src/solutions/day11.rs:28-42 | the offsets of the first lines do not depend on the later lines |
| Day11.ScannedFits | src/solutions/day11.rs:30-33 | a scan that does not overflow `u32` holds only `u32` offsets |
| Day11.Scan | src/solutions/day11.rs:28-42 | the loop over the flags computes the scan, stopping with `None` where `factor - 1` underflows or the total overflows `u32` |
| Day11.EmptyLines | src/solutions/day11.rs:18-26 | the first loop of `expand` leaves exactly the rows and columns without a galaxy flagged |
| Day11.Cells | src/solutions/day11.rs:8-10 | a cell is a galaxy exactly when its character is `#` |
| Day11.Parse | src/solutions/day11.rs:3-15 | a parsed image is a rectangle; no lines, empty rows or cells that do not fill whole rows give `None` |
| Day11.FromVec | src/solutions/day11.rs:13-14 | the cells cut into rows form a rectangle |
| Day11.PushCells | src/solutions/day11.rs:8-10 | the inner loop appends one line's cells |
| Day11.ParseInput | src/solutions/day11.rs:3-15 | the loops of `parse_input` give the parsed image |
| Day11.RowText | src/solutions/day11.rs:8-10 | a row is written with `#` for a galaxy and `.` elsewhere |
| Day11.CellsFlatten | src/solutions/day11.rs:7-12 | reading the written rows one after another gives the cells back |
| Day11.ParseRoundTrip | src/solutions/day11.rs:3-15 | reading a written image gives it back |
| Day11Galaxies.RowGalaxies | src/solutions/day11.rs:46-56 | the galaxies listed for a row lie in that row on galaxy cells |
| Day11Galaxies.Galaxies | src/solutions/day11.rs:46-56 | the galaxies listed lie on galaxy cells of the rows read |
| Day11Galaxies.InRowGalaxies | src/solutions/day11.rs:46-56 | a row's list holds exactly its galaxy cells |
| Day11Galaxies.InGalaxies | src/solutions/day11.rs:46-56 | the list holds exactly the galaxy cells, in both directions |
| Day11Galaxies.Moved | src/solutions/day11.rs:51-55 | every point is moved by the offsets of its row and column, in order |
| Day11Galaxies.MovedSnoc | src/solutions/day11.rs:55 | moving a list with one more point appends that point moved |
| Day11Galaxies.InMoved | src/solutions/day11.rs:51-55 | the moved points are exactly the moves of the points |
| Day11Galaxies.InExpanded | src/solutions/day11.rs:17-59 | a point is in the expanded image exactly when a galaxy moves to it |
| Day11Galaxies.FactorOneKeeps | src/solutions/day11.rs:17-59 | with a factor of one `expand` lists the galaxies where they are |
| Day11Galaxies.MapStars | src/solutions/day11.rs:44-58 | the second loop lists every galaxy, row by row, moved by its row and column offsets |
| Day11Galaxies.Expand | src/solutions/day11.rs:17-59 | `expand` fails exactly when a scan underflows or overflows `u32`, and otherwise returns the expanded galaxies |
| Day11Pairs.TableCons | src/solutions/day11.rs:61-71 | the table of all ordered pairs splits by its first column |
| Day11Pairs.EachPairOnce | src/solutions/day11.rs:64-68 | the sum over all ordered pairs is twice the sum over the pairs the nested loop visits, so every unordered pair is counted once |
| Day11Pairs.DistSymmetric | src/solutions/day11.rs:66 | the Manhattan distance is symmetric and zero from a point to itself |
| Day11Pairs.ShortestPairs | src/solutions/day11.rs:61-71 | the nested loop sums the distance of every pair `i < j` |
| Day11Pairs.OnGalaxy | src/solutions/day11.rs:21-26 | a galaxy's row and column are not empty |
| Day11Pairs.MovedDist | src/solutions/day11.rs:51-54 | two galaxies end up their first distance apart plus `factor - 1` for every empty row and column between them |
| Day11Pairs.PairSumScaled | src/solutions/day11.rs:61-71 | scaling every pair's extra distance scales the sum |
| Day11Pairs.StretchedPairs | src/solutions/day11.rs:61-71 | the pair sum of moved points is the first sum plus the sum of the extra distances |
| Day11Pairs.AnswerSplit | src/solutions/day11.rs:73-83 | the answer after expanding is the first pair sum plus `factor - 1` times the empty lines between every pair |
| Day11Pairs.AnswerLinear | src/solutions/day11.rs:73-83 | the answer grows by the same amount for every step of the factor |
| Day11Pairs.ExampleAnswers | src/solutions/day11.rs:91-104 | the example's three answers agree: 374 at factor 2 and 1030 at factor 10 give 8410 at factor 100 |
| Day11Pairs.PartOne | src/solutions/day11.rs:73-77 | a panic exactly when the image does not parse or the offsets overflow, and otherwise the pair sum at factor two |
| Day11Pairs.PartTwo | src/solutions/day11.rs:79-83 | the same at factor one million |
| Day12.FromChar | src/solutions/day12.rs:11-18 | a character reads as a spring exactly when it is `#`, `.` or `?` |
| Day12.CharRoundTrip | src/solutions/day12.rs:11-18 | writing a spring and reading it back gives the spring |
| Day12.Unknowns | src/solutions/day12.rs:89-93 | a row has at most as many unknown springs as springs |
| Day12.AssignFrom | src/solutions/day12.rs:57-62 | deciding the unknowns by the bits leaves a row of the same length with no unknown spring |
| Day12.AssignAt | src/solutions/day12.rs:44-62 | a known spring keeps its state; the unknown at a position is broken exactly when the bit numbered by the unknowns before it is set |
| Day12.BitShift | src/solutions/day12.rs:46 | bit `k + 1` of a number is bit `k` of its half |
| Day12.AssignCons | src/solutions/day12.rs:44-62 | the first unknown takes the lowest bit and the rest of the row the remaining bits |
| Day12.RunHead | src/solutions/day12.rs:64-76 | a run under way shows up first among the runs, at least as long as it is so far |
| Day12.FinishMatches | src/solutions/day12.rs:81-85 | the last test holds exactly when the run under way is the last group expected |
| Day12.CheckMatchesRuns | src/solutions/day12.rs:57-85 | from any state, the loop accepts exactly when the runs of broken springs ahead are the groups still expected |
| Day12.CheckBroken | src/solutions/day12.rs:65-67 | a broken spring lengthens the run or is rejected, and the loop's verdict still matches the runs |
| Day12.CheckOperational | src/solutions/day12.rs:68-72 | an operational spring closes a run that must fill its group, and the verdict still matches the runs |
| Day12.CheckIsRuns | src/solutions/day12.rs:37-86 | for positive groups, an assignment is accepted exactly when its runs of broken springs are the groups, in order |
| Day12.CheckStep | src/solutions/day12.rs:57-79 | the loop goes on from a spring exactly when its step succeeds |
| Day12.NextUnknown | src/solutions/day12.rs:44-55 | the closure decides the next unknown spring by the next bit and counts it |
| Day12.Advance | src/solutions/day12.rs:64-78 | the `match` gives the next group state, or `None` where the check returns `false` |
| Day12.CheckValid | src/solutions/day12.rs:37-86 | `check_valid_assignment` returns the verdict of the check on the row filled from the bits |
| Day12Count.FillsCons | src/solutions/day12.rs:57-62 | a filling decides every spring and keeps every known one |
| Day12Count.AssignFills | src/solutions/day12.rs:57-62 | every number fills the row |
| Day12Count.EncodeAssign | src/solutions/day12.rs:95 | each number below `2^k` is the code of the filling it makes |
| Day12Count.AssignEncode | src/solutions/day12.rs:95 | every filling is made by its code, which lies below `2^k` |
| Day12Count.Count | src/solutions/day12.rs:95-104 | at most `n` of the numbers below `n` are accepted |
| Day12Count.CountAccepted | src/solutions/day12.rs:95-104 | the count is the number of accepted numbers below `n` |
| Day12Count.MadeCard | src/solutions/day12.rs:95 | different numbers below `2^k` make different fillings |
| Day12Count.ArrangementsAre | src/solutions/day12.rs:88-105 | an arrangement is a filling of the row whose runs are the groups |
| Day12Count.CountIsArrangements | src/solutions/day12.rs:88-105 | with positive groups, the brute-force count is the number of arrangements of the row |
| Day12Count.BruteForceRow | src/solutions/day12.rs:88-105 | `brute_force_row` counts the accepted numbers below `2^k` |
| Day12Input.ParseSprings | src/solutions/day12.rs:30 | a parsed row has one spring per character, each read by `from_char` |
| Day12Input.ParseGroups | src/solutions/day12.rs:31 | one group per piece |
| Day12Input.SpringsRoundTrip | src/solutions/day12.rs:30 | reading written springs gives them back |
| Day12Input.GroupsRoundTrip | src/solutions/day12.rs:31 | reading written groups gives them back |
| Day12Input.RecordRoundTrip | src/solutions/day12.rs:27-35 | reading a written record gives it back when its groups fit a `usize` |
| Day12Input.ParseRecords | src/solutions/day12.rs:27-35 | one record per line, each as the line reads |
| Day12Input.TotalIsArrangements | src/solutions/day12.rs:107-109 | with positive groups everywhere, the sum is the total number of arrangements |
| Day12Input.CountAll | src/solutions/day12.rs:108 | the loop adds up the brute-force counts of all records |
| Day12Input.PartOne | src/solutions/day12.rs:107-109 | `part_one` is the sum of the brute-force counts of the parsed records |
| Day13.FromChar | src/solutions/day13.rs:13-19 | a character reads as a symbol exactly when it is `.` or `#` |
| Day13.CharRoundTrip | src/solutions/day13.rs:13-19 | writing a symbol and reading it back gives the symbol |
| Day13.Mapped | src/solutions/day13.rs:54 | the mirrored position lies past the line, as far from it as the position is |
| Day13.RowDiffs | src/solutions/day13.rs:53-76 | a line has at most as many differing pairs as pairs looked at |
| Day13.RowDiffsZero | src/solutions/day13.rs:53-76 | a line has no differing pair exactly when every mirrored pair in it is equal |
| Day13.DiffsZero | src/solutions/day13.rs:52-77 | the lines have no differing pair exactly when every mirrored pair in them is equal |
| Day13.ReflectsIsMirrors | src/solutions/day13.rs:38-80 | without a smudge, a line reflects exactly when every mirrored pair whose image is on the pattern is equal |
| Day13.RowDiffsMono | src/solutions/day13.rs:53-76 | looking at more pairs never finds fewer differences |
| Day13.DiffsMono | src/solutions/day13.rs:52-77 | looking at more lines never finds fewer differences |
| Day13.SeenBound | src/solutions/day13.rs:52-77 | the differences seen before any point of the loop never exceed those of the whole mirror |
| Day13.Transpose | src/solutions/day13.rs:46-65 | swapping rows and columns gives a pattern of the swapped size |
| Day13.TransposeCells | src/solutions/day13.rs:55-65 | a horizontal cell of the pattern is the vertical cell of the transposed one |
| Day13.TransposeDiffs | src/solutions/day13.rs:52-77 | the differences across a horizontal line are those across the vertical line of the transposed pattern |
| Day13.HorizontalIsTransposed | src/solutions/day13.rs:38-80 | a horizontal line reflects exactly when the vertical line of the transposed pattern does |
| Day13.CheckMirror | src/solutions/day13.rs:38-80 | `check_mirror` accepts exactly when the mirror has no differing pair, or exactly one when a smudge is allowed |
| Day13Score.FirstLine | src/solutions/day13.rs:86-97 | the line found reflects and no earlier line does; none is found only when no line in range reflects |
| Day13Score.Score | src/solutions/day13.rs:85-98 | a pattern adds nothing exactly when no vertical and no horizontal line reflects |
| Day13Score.GridScore | src/solutions/day13.rs:85-98 | the two searches give the first vertical line's column count, or else 100 times the first horizontal line's row count |
| Day13Score.Symbols | src/solutions/day13.rs:30-32 | one symbol per character |
| Day13Score.ParseGrid | src/solutions/day13.rs:22-35 | a parsed pattern is a rectangle; a bad character or symbols that do not fill rows as wide as the last line give `None` |
| Day13Score.SymbolsFlatten | src/solutions/day13.rs:27-33 | reading the written lines one after another gives the symbols back |
| Day13Score.GridRoundTrip | src/solutions/day13.rs:22-35 | reading the lines a pattern is written as gives the pattern back |
| Day13Score.AllGrids | src/solutions/day13.rs:22-35 | one pattern per blank-line separated block, each as the block reads |
| Day13Score.SumScores | src/solutions/day13.rs:85-99 | the loop adds up the score of every pattern |
| Day13Score.ProcessGrid | src/solutions/day13.rs:82-102 | `process_grid` is the sum of the patterns' scores |
| Day13Score.PartOne | src/solutions/day13.rs:104-106 | the sum of the scores without a smudge |
| Day13Score.PartTwo | src/solutions/day13.rs:108-110 | the sum of the scores with exactly one smudge |
| Day14.FromChar | src/solutions/day14.rs:14-21 | a character reads as a symbol exactly when it is `O`, `#` or `.` |
| Day14.CharRoundTrip | src/solutions/day14.rs:14-21 | writing a symbol and reading it back gives the symbol |
| Day14.LeTotal | src/solutions/day14.rs:5 | the derived order on (key, symbol) pairs is total, antisymmetric and transitive, so sorting has one answer |
| Day14.TagFrom | src/solutions/day14.rs:60-66 | the `scan` tags every cell of the row |
| Day14.TagKeys | src/solutions/day14.rs:60-66 | the scan keeps the symbols and its keys never go below the start |
| Day14.TiltFrom | src/solutions/day14.rs:59-69 | a tilt keeps the row's length |
| Day14.CubesStay | src/solutions/day14.rs:59-69 | a tilt keeps the row's length and every cube at its index |
| Day14.TiltKeepsCounts | src/solutions/day14.rs:59-69 | a tilt keeps the number of cells of each kind |
| Day14.TiltTwice | src/solutions/day14.rs:59-69 | tilting a tilted row changes nothing |
| Day14.TagFlat | src/solutions/day14.rs:60-66 | a stretch without cubes keeps one key throughout |
| Day14.TagFillSorted | src/solutions/day14.rs:60-67 | a settled stretch, tagged, is in sorted order |
| Day14.TiltSortedFrom | src/solutions/day14.rs:60-67 | the tilted row, tagged by the same scan, is sorted |
| Day14.TiltTagsFrom | src/solutions/day14.rs:60-67 | the tilted row holds the same tagged cells as the row |
| Day14.SortedUnique | src/solutions/day14.rs:67 | two sorted sequences holding the same elements are equal, so an unstable sort has one result |
| Day14.SortIsTilt | src/solutions/day14.rs:59-69 | whatever order `sorted_unstable` picks among equal elements, the row it produces is the tilted row |
| Day14Platform.Turn | src/solutions/day14.rs:49-54 | the turn before the tilt gives a rectangle |
| Day14Platform.TurnBack | src/solutions/day14.rs:74-79 | the turn after the tilt gives a rectangle |
| Day14Platform.TurnBackUndoes | src/solutions/day14.rs:49-79 | for every direction, turning back undoes the turn |
| Day14Platform.TurnUndoesBack | src/solutions/day14.rs:49-79 | for every direction, turning undoes the turn back |
| Day14Platform.TiltRows | src/solutions/day14.rs:56-72 | every row is replaced by its tilt, keeping its length |
| Day14Platform.TurnBackLayout | src/solutions/day14.rs:74-79 | turning back moves the cubes as it moves the cells |
| Day14Platform.TiltKeepsCubes | src/solutions/day14.rs:48-82 | a tilt keeps the platform's shape and every cube-shaped rock where it is |
| Day14Platform.TiltTwiceSame | src/solutions/day14.rs:48-82 | tilting a tilted platform the same way changes nothing |
| Day14Platform.WeightZero | src/solutions/day14.rs:84-94 | the load is zero exactly when no rounded rock is left |
| Day14Platform.EastKeepsWeight | src/solutions/day14.rs:84-94 | an east tilt keeps the north load |
| Day14Platform.TiltPlatform | src/solutions/day14.rs:48-82 | `tilt_platform` turns, tilts each row and turns back |
| Day14Platform.Symbols | src/solutions/day14.rs:34 | one symbol per character |
| Day14Platform.Parse | src/solutions/day14.rs:24-39 | a parsed platform is a rectangle as wide as its first line; bad input gives `None` |
| Day14Platform.SymbolsFlatten | src/solutions/day14.rs:27-36 | reading the written rows one after another gives the cells back |
| Day14Platform.ParseRoundTrip | src/solutions/day14.rs:24-39 | reading a written platform gives it back |
| Day14Platform.PartOne | src/solutions/day14.rs:96-100 | the load after a tilt to the north |
| Day14Cycle.Cycle | src/solutions/day14.rs:107-112 | a spin cycle keeps the platform's shape |
| Day14Cycle.IterateAdd | src/solutions/day14.rs:114-131 | `a` cycles then `b` more are `a + b` cycles |
| Day14Cycle.Periodic | src/solutions/day14.rs:118-121 | once the platform after `p` cycles comes back after `i`, it comes back every `i - p` cycles |
| Day14Cycle.SkipAhead | src/solutions/day14.rs:119-125 | the skip is exact: after the repetition, the cycles left once whole loops are removed lead to the platform after the full count |
| Day14Cycle.RecordStep | src/solutions/day14.rs:127-129 | recording a platform keeps every entry of `seen` the cycle count of its platform |
| Day14Cycle.InAllPlatforms | src/solutions/day14.rs:114-131 | every platform of the same size is among finitely many, so a repetition must come |
| Day14Cycle.SpinCycle | src/solutions/day14.rs:107-112 | the closure applies one spin cycle |
| Day14Cycle.SpinTimes | src/solutions/day14.rs:122-124 | the loop applies `n` more spin cycles |
| Day14Cycle.SpinUntil | src/solutions/day14.rs:114-131 | the loop ends with the platform after the full number of cycles |
| Day14Cycle.PartTwo | src/solutions/day14.rs:102-134 | `part_two` is the load after a billion spin cycles |
| Grids.ChunkRect | src/solutions/day14.rs:38 | data that fills whole rows is cut into rows all of the given width |
| Grids.FlattenLength | src/solutions/day14.rs:27-36 | the cells of equal rows number rows times width |
| Grids.ChunkFlatten | src/solutions/day14.rs:27-38 | cutting the cells of equal rows at their width gives the rows back |
| Grids.RotateRight | src/solutions/day14.rs:50 | a clockwise quarter turn: the top row becomes the right-most column |
| Grids.RotateLeft | src/solutions/day14.rs:52 | a counter-clockwise quarter turn: the top row becomes the left-most column, read upwards |
| Grids.RotateHalf | src/solutions/day14.rs:53 | a half turn |
| Grids.LeftUndoesRight | src/solutions/day14.rs:50-75 | a quarter turn left undoes a quarter turn right |
| Grids.RightUndoesLeft | src/solutions/day14.rs:52-77 | a quarter turn right undoes a quarter turn left |
| Grids.HalfUndoesHalf | src/solutions/day14.rs:53-78 | a half turn undoes itself |
| Grids.MapCells | src/solutions/day14.rs:48-82 | applying a function to every cell keeps the shape |
| Grids.MapRight | src/solutions/day14.rs:50 | mapping the cells and turning right commute |
| Day15.Hash | src/solutions/day15.rs:1-11 | the HASH of a text is below 256 |
| Day15.CalculateHash | src/solutions/day15.rs:1-11 | the accumulator loop computes the HASH, and its `u32` stays below 256 between steps so it never overflows |
| Day15.SumHashes | src/solutions/day15.rs:37-39 | the sum over the steps is at most 255 per step, so `part_one`'s `u32` never overflows on fewer than 16 million steps |
| Day15.OperatorIndex | src/solutions/day15.rs:24 | the cut is at the first `=` or `-`, and there is none when the text holds neither |
| Day15.ParseInstruction | src/solutions/day15.rs:23-35 | the label is the text before the first operator; nothing after it means Remove, whichever operator it was, and a `u8` after it means Insert of that focal length |
| Day15.ParseRender | src/solutions/day15.rs:23-35 | parsing a written step gives the instruction back |
| Day15.KeyIndex | src/solutions/day15.rs:52-57 | the scan finds the first lens with the label, or reports that none has it |
| Day15.Removed | src/solutions/day15.rs:62-64 | `retain` never makes the bucket longer |
| Day15.InsertedLookup | src/solutions/day15.rs:51-60 | after an insert the label maps to the new focal length, and every other label maps to what it did |
| Day15.InsertedInPlace | src/solutions/day15.rs:51-60 | an insert never moves a lens: a present label keeps its slot and only its focal length changes; a new label goes last |
| Day15.InsertedDistinct | src/solutions/day15.rs:51-60 | inserting keeps the labels of a bucket distinct |
| Day15.RemovedDrops | src/solutions/day15.rs:62-64 | no lens with the label survives a remove, and exactly the other lenses stay |
| Day15.RemovedAbsent | src/solutions/day15.rs:62-64 | removing an absent label changes nothing |
| Day15.RemovedCuts | src/solutions/day15.rs:62-64 | with distinct labels, a remove cuts exactly that one lens out, keeping the order of the rest |
| Day15.RemovedDistinct | src/solutions/day15.rs:62-64 | removing keeps the labels of a bucket distinct |
| Day15.LensBox.constructor | src/solutions/day15.rs:47-49 | a new box is empty |
| Day15.LensBox.Put | src/solutions/day15.rs:51-60 | `insert` rewrites the bucket to the inserted one |
| Day15.LensBox.Delete | src/solutions/day15.rs:62-64 | `remove` rewrites the bucket to the one with the label dropped |
| Day15.Apply | src/solutions/day15.rs:70-83 | an instruction keeps 256 boxes |
| Day15.ApplyKeepsSorted | src/solutions/day15.rs:70-83 | after an instruction every lens is in the box its label hashes to, and each box's labels stay distinct |
| Day15.ApplyAllKeepsSorted | src/solutions/day15.rs:70-83 | the same after any number of instructions |
| Day15.Instructions | src/solutions/day15.rs:70 | one instruction per step |
| Day15.EmptyBoxes | src/solutions/day15.rs:68 | 256 empty boxes start well sorted |
| Day15.RunSteps | src/solutions/day15.rs:70-83 | the loop leaves the boxes as the instructions applied in order to what they held |
| Day15.Perform | src/solutions/day15.rs:71-82 | one step changes the boxes as its instruction says, and only the box its label hashes to |
| Day15.TotalPower | src/solutions/day15.rs:85-96 | the final sum is the focusing power of the boxes |
| Day15.NewBoxes | src/solutions/day15.rs:68 | 256 new, distinct, empty boxes |
| Day15.PartTwo | src/solutions/day15.rs:67-97 | `part_two` is the focusing power after every step is applied to empty boxes |
| Day16.AlphaRun | src/solutions/day16.rs:24 | the run of letters at the start of a text, and no letter right after it |
| Day16.Name | src/solutions/day16.rs:24-27 | `alpha1` fails exactly on a text that does not start with a letter; otherwise it splits off the longest run of letters |
| Day16.TableNamed | src/solutions/day16.rs:81-83 | every valve of the table is filed under its own name |
| Day16.TableKeys | src/solutions/day16.rs:81-83 | the table holds exactly the names of the valves |
| Day16.TableLast | src/solutions/day16.rs:81-83 | under each name the table keeps the last valve of that name, as `collect` into a `HashMap` does |
| Day16.NameRoundTrip | src/solutions/day16.rs:24-27 | a name is read back whole when no letter follows it |
| Day16.MoreNamesStep | src/solutions/day16.rs:34 | a separator and a name in front of a list join the list |
| Day16.MoreNamesRoundTrip | src/solutions/day16.rs:34 | the names after the first, each behind its separator, are read back |
| Day16.NameListRoundTrip | src/solutions/day16.rs:34 | a written list of names is read back whole |
| Day16.TunnelsSingular | src/solutions/day16.rs:30-33 | the singular phrasing is not mistaken for the plural one |
| Day16.DetailsRoundTrip | src/solutions/day16.rs:28-43 | what follows a written name is read back, whichever phrasing the line uses |
| Day16.LineOf | src/solutions/day16.rs:26-27 | a line that names a valve reads as that name and the details that follow it |
| Day16.LineRoundTrip | src/solutions/day16.rs:23-44 | reading a written valve gives it back, whichever phrasing the line uses |
| Day16Paths.Crossing | src/solutions/day16.rs:68-74 | a walk that starts inside a set and ends outside it crosses its border somewhere |
| Day16Paths.Enclosed | src/solutions/day16.rs:68-74 | a set that holds the start and every tunnel out of its members holds the end of every walk from the start |
| Day16Paths.Frontier | src/solutions/day16.rs:60-75 | a valve first reached from a frontier no closer than `d` tunnels is at least `d + 1` tunnels away |
| Day16Paths.Expand | src/solutions/day16.rs:68-74 | every neighbour not yet visited is marked visited and queued one tunnel further; a neighbour that is not a valve is a panic |
| Day16Paths.FrontierBound | src/solutions/day16.rs:60-75 | every valve visited but not expanded is at least as far as the front of the queue |
| Day16Paths.ReachedWalks | src/solutions/day16.rs:68-74 | the walks to the new neighbours are walks, and none is shorter |
| Day16Paths.ReachedOrder | src/solutions/day16.rs:60-75 | the queue still holds distinct valves in order of distance |
| Day16Paths.AdvanceWalks | src/solutions/day16.rs:60-75 | expanding the nearest unexpanded valve keeps what the search knows of the walks |
| Day16Paths.AdvanceQueue | src/solutions/day16.rs:60-75 | popping the front and queuing the new neighbours keeps the queue in order |
| Day16Paths.Search | src/solutions/day16.rs:55-75 | one breadth-first search panics exactly when a walk from its start reaches a name that is not a valve, and otherwise finds exactly the reachable valves with a positive flow rate, each at its shortest distance |
| Day16Paths.Note | src/solutions/day16.rs:61-66 | the popped valve is recorded exactly when its flow rate is positive |
| Day16Paths.Complete | src/solutions/day16.rs:60-75 | when the queue runs dry every reachable valve was visited, so the distances are those of every reachable valve with a positive flow rate |
| Day16Paths.BuildPaths | src/solutions/day16.rs:50-78 | `build_paths` panics exactly when a search from some valve does; otherwise every valve that finds anything has the entry of its search, and no other valve has an entry |
| Day16Paths.Record | src/solutions/day16.rs:54-76 | keeping one more search's result keeps every entry built so far |
| Day16Paths.NumberNext | src/solutions/day16.rs:85-86 | giving a new valve the next number keeps a numbering |
| Day16Paths.ValveIndex | src/solutions/day16.rs:85-86 | every valve gets a different number below the number of valves, in the order of the hash map |
| Day16Explore.RunSnoc | src/solutions/day16.rs:97-113 | a run extended by a successor of its last state is a run |
| Day16Explore.ClearedRun | src/solutions/day16.rs:97-113 | once nothing is pending, every state of every run is no better than the best |
| Day16Explore.PopWeight | src/solutions/day16.rs:97-113 | replacing a popped state by fewer than `b` successors, each with less time left, makes the stack lighter, so the loop ends |
| Day16Explore.PopStacked | src/solutions/day16.rs:97-113 | each state on the stack stays at the end of a run from the start |
| Day16Explore.PopCleared | src/solutions/day16.rs:97-113 | popping, raising the best and pushing every successor keeps everything off the stack no better than the best |
| Day16Explore.Begin | src/solutions/day16.rs:90-95 | the loop starts with the start state on the stack and its total as the best |
| Day16Explore.Advance | src/solutions/day16.rs:97-113 | one turn keeps the loop's invariant |
| Day16Explore.Finish | src/solutions/day16.rs:97-117 | when the stack is empty, every state of every run is no better than the best |
| Day16Release.Openings | src/solutions/day16.rs:102-112 | the loop over a valve's distances keeps exactly the openings that fit in the time left and open a closed valve, each once |
| Day16Release.DescendingOne | src/solutions/day16.rs:106-110 | every move of one walker spends at least a minute |
| Day16Release.ChildrenOne | src/solutions/day16.rs:102-112 | the states pushed are all the successors of the popped one |
| Day16Release.TurnOne | src/solutions/day16.rs:97-113 | one turn of the loop of `part_one` keeps the search's invariant and makes the stack lighter |
| Day16Release.SearchOne | src/solutions/day16.rs:95-117 | the loop of `part_one` ends with the largest total of any run from the start, and a run that reaches it |
| Day16Release.DescendingTwo | src/solutions/day16.rs:146-172 | every move spends at least a minute of whichever of the two moves |
| Day16Release.ChildrenTwo | src/solutions/day16.rs:146-174 | the states pushed are all the successors of the popped one, the later of the two moving |
| Day16Release.TurnTwo | src/solutions/day16.rs:138-175 | one turn of the loop of `part_two` keeps the search's invariant and makes the stack lighter |
| Day16Release.SearchTwo | src/solutions/day16.rs:135-178 | the loop of `part_two` ends with the largest total of any run from the start, and a run that reaches it |
| Day16Release.EntryAA | src/solutions/day16.rs:93 | `AA` has an entry exactly when it is a valve that reaches a valve with a positive flow rate |
| Day16Release.FoundClosed | src/solutions/day16.rs:102-103 | every valve found from a valve has an entry of its own, so the searches never miss in `paths` |
| Day16Release.StuckExactly | src/solutions/day16.rs:84-93 | the start panics exactly when `build_paths` does, when there are more than 64 valves, or when `AA` has no entry |
| Day16Release.CaveReady | src/solutions/day16.rs:97-113 | a cave built by the start, with at most 64 valves, is one the searches walk without a panic |
| Day16Release.Prepare | src/solutions/day16.rs:84-93 | the start panics exactly in the cases above, and otherwise gives the distances and a numbering of the valves |
| Day16Release.Survey | src/solutions/day16.rs:81-93 | parsing and the start panic exactly when a line does not parse or the start panics |
| Day16Release.PartOne | src/solutions/day16.rs:80-118 | `part_one` is the largest pressure one walker can release in 30 minutes from `AA`, attained by some run; `None` exactly on a panic |
| Day16Release.PartTwo | src/solutions/day16.rs:120-179 | `part_two` is the largest total over the runs the source explores, in which only the walker with more time left moves, for a walker and an elephant in 26 minutes from `AA`, attained by some such run; `None` exactly on a panic |
| Day18.ParseCube | src/solutions/day18.rs:7-14 | a line is read only when it splits into exactly three comma-separated pieces, each an `i16`; anything else is the panic |
| Day18.ReadCubes | src/solutions/day18.rs:7-14 | the droplet is exactly the set of the cubes the lines parse to |
| Day18.FacesAreNeighbours | src/solutions/day18.rs:16-27 | the six faces are exactly the cubes at Manhattan distance one, pairwise distinct |
| Day18.AllUncovered | src/solutions/day18.rs:33-38 | faces that no cube covers are all counted |
| Day18.LoneCube | src/solutions/day18.rs:29-42 | a lone cube contributes all six faces |
| Day18.CountFaces | src/solutions/day18.rs:34-38 | the faces of one cube counted: uncovered ones, and for part two only those air touches |
| Day18.PartOne | src/solutions/day18.rs:29-42 | the total is the number of (cube, face) pairs whose face is not a cube, over the set in its iteration order |
| Day18.ExteriorAtMostExposed | src/solutions/day18.rs:79-89 | the faces touching air are never more than the faces not covered |
| Day18Air.MaxRadius | src/solutions/day18.rs:47-52 | the radius is one more than the largest cube norm: above every cube, and attained |
| Day18Air.Seed | src/solutions/day18.rs:54-66 | the seeding loops put exactly the cells of norm `max_radius` into the air set and onto the stack |
| Day18Air.Spread | src/solutions/day18.rs:69-76 | one pop adds every face of the popped cell that is inside the ball, not a cube and not yet air, keeps air bounded and cube-free, and grows air or shrinks the stack |
| Day18Air.ShellReached | src/solutions/day18.rs:54-66 | every shell cell that is not a cube is reached by the one-cell walk |
| Day18Air.ReachedStep | src/solutions/day18.rs:69-76 | a face of a reached cell that is inside the ball and not a cube is reached |
| Day18Air.WalkInside | src/solutions/day18.rs:68-77 | a set that holds the shell and is closed under moves holds the end of every walk from the shell |
| Day18Air.ReachedGrows | src/solutions/day18.rs:69-76 | the cells one pop adds are all reached from the shell |
| Day18Air.Flood | src/solutions/day18.rs:68-77 | the flood terminates with air containing the shell, holding no cube, within the ball, closed under moves inside the ball that avoid cubes, and equal to the set of cells a walk from the shell reaches |
| Day18Air.PartTwo | src/solutions/day18.rs:44-90 | the answer counts the faces that are not cubes and are air, air being exactly the cells reachable from the shell without crossing a cube, and is at most the part-one count |
| Day18Air.CountExterior | src/solutions/day18.rs:79-87 | the last loop counts, over every cube, the faces that are not cubes and are air |
| Day23.Around | src/solutions/day23.rs:34-44 | the eight neighbourhood slots are eight tiles other than the elf's own, each at most one step away on both axes |
| Day23.AroundComplete | src/solutions/day23.rs:34-46 | every tile of the 3x3 block other than the elf's own is one of the slots, so "active" means some adjacent elf |
| Day23.FirstFree | src/solutions/day23.rs:52-81 | the proposal is the step of the first direction whose three slots are empty, every earlier direction being blocked; none when all four are blocked |
| Day23.Propose | src/solutions/day23.rs:44-81 | an elf with no neighbour proposes nothing; a proposed tile is empty and one step away |
| Day23.MoveChanges | src/solutions/day23.rs:84-95 | a round in which some elf is the only proposer of its tile changes the set of elves |
| Day23.RotateLeft | src/solutions/day23.rs:110 | rotating by one keeps the length and moves every direction one place to the front, the first to the back |
| Day23.RotateFour | src/solutions/day23.rs:101-111 | four rotations give back the starting order North, South, West, East |
| Day23.Parse | src/solutions/day23.rs:16-28 | the elves are exactly the `#` cells, at column x and line y |
| Day23.RectCard | src/solutions/day23.rs:126 | the rectangle [x0, x1] x [y0, y1] holds (x1 - x0 + 1) * (y1 - y0 + 1) tiles |
| Day23Step.FirstFreeOf | src/solutions/day23.rs:52-81 | the direction loop finds the same proposal as the first-free characterisation |
| Day23Step.ProposalOf | src/solutions/day23.rs:34-81 | the activity check over the eight slots, then the direction loop, give the elf's proposal |
| Day23Step.CollectProposals | src/solutions/day23.rs:31-82 | after every elf, the map holds exactly the proposed tiles, `Some(e)` for a tile that `e` alone proposed and `None` for a tile two or more elves proposed |
| Day23Step.CollectedNext | src/solutions/day23.rs:71-93 | applying the collected map moves exactly the elves that are the only proposer of their tile, to that tile, and leaves every other elf in place |
| Day23Step.ApplyProposals | src/solutions/day23.rs:84-95 | applying the map removes every single proposer and adds its tile, keeps the number of elves, and reports movement exactly when some entry had a single proposer |
| Day23Step.Step | src/solutions/day23.rs:30-96 | a round gives the next set of elves, keeps their number, and returns `true` exactly when some elf moves, that is exactly when the set changes |
| Day23Rounds.Bounds | src/solutions/day23.rs:113-124 | the fold finds the tight bounding box: every elf inside, every side touched by an elf |
| Day23Rounds.PartOne | src/solutions/day23.rs:98-127 | after ten rounds, each followed by a rotation of the order, the answer is the number of empty tiles of the tight bounding box |
| Day23Rounds.IterateShift | src/solutions/day23.rs:140-150 | the states of the round loop may be counted from the state after the first round |
| Day23Rounds.FirstQuietIsQuiet | src/solutions/day23.rs:140-151 | the round number the loop returns is within the fuel, and that round moves nobody |
| Day23Rounds.FirstQuietMoving | src/solutions/day23.rs:140-151 | every round before the one returned, and every round within the fuel when none is returned, moves some elf |
| Day23Rounds.Advance | src/solutions/day23.rs:143-145 | one turn of the loop applies the round to the elves and the order, keeps the number of elves, and reports whether it changed the elves |
| Day23Rounds.PartTwo | src/solutions/day23.rs:129-152 | the answer is the number, counting from 1, of the first round that moves no elf (as found by `Settle`), or none within the fuel |
| Day22.ParseCoord | src/solutions/day22.rs:11-22 | a corner reads only when its text has at least three comma pieces, each a `usize` |
| Day22.ParseBrick | src/solutions/day22.rs:8-29 | a brick reads only when the line has a `~`, with the corners before and after it |
| Day22.ParseRenderCoord | src/solutions/day22.rs:11-22 | a corner written as "x,y,z" reads back as itself |
| Day22.ParseCoordIgnoresRest | src/solutions/day22.rs:11-22 | pieces after the third are never read: a written corner followed by a comma and any text reads back as that corner |
| Day22.ParseRenderBrick | src/solutions/day22.rs:8-29 | a brick written as "start~end" reads back as itself |
| Day22.Cells | src/solutions/day22.rs:38-44 | the cells listed are exactly those inside the brick's box |
| Day22.CellsCount | src/solutions/day22.rs:38-44 | the listing has as many cells as the box's volume, so no cell comes twice |
| Day22.SortBy | src/solutions/day22.rs:141-148 | sorting keeps the elements with their multiplicities, and the result is in ascending key order |
| Day22.ByZEntries | src/solutions/day22.rs:141-148 | `get_cubes_by_z` holds one entry per brick, with its index, bottom z and top z, in ascending bottom z |
| Day22Columns.Push | src/solutions/day22.rs:63-66 | pushing a cell adds its (x, y) column to the map's keys and no other |
| Day22Columns.RawCells | src/solutions/day22.rs:61-68 | the raw map holds the pair (z, i) under column (x, y) exactly when (x, y, z) is a cell of brick i, and holds no empty column |
| Day22Columns.RawIntersections | src/solutions/day22.rs:59-68 | the nested loops build the raw map of every brick's cells |
| Day22Columns.FileCells | src/solutions/day22.rs:62-67 | the inner loop files each cell of one brick under its column, in the iteration order |
| Day22Columns.Ordered | src/solutions/day22.rs:84-85 | sorting then reversing a column keeps its pairs with their multiplicities |
| Day22Columns.OrderedDescending | src/solutions/day22.rs:84-85 | after the sort and the reverse the column lists its pairs in descending z |
| Day22Columns.PlaceColumn | src/solutions/day22.rs:87-97 | placing one column records position p for the brick of the column's p-th pair, adds nothing else, and yields the column's brick indices |
| Day22Gravity.FirstOther | src/solutions/day22.rs:114-121 | the scan stops at the first position holding a brick that is neither the brick itself nor the filtered one, or finds none |
| Day22Gravity.Distance | src/solutions/day22.rs:123-128 | the gap is defined exactly when both `assert!`s hold and the subtraction does not underflow, and then the lower brick's top plus the gap plus one is the brick's bottom |
| Day22Gravity.ScansMeaning | src/solutions/day22.rs:110-136 | over the brick's columns the loop panics if any column panics, is clear if every column is, and otherwise keeps the smallest gap of any column |
| Day22Gravity.Gravity | src/solutions/day22.rs:107-139 | a fall that is defined leaves the brick above height 0 |
| Day22Gravity.GravityMinimal | src/solutions/day22.rs:107-139 | the fall is no larger than any column's gap and equals one of them, or every column is clear and the brick falls to height 1 |
| Day22Gravity.GravityPanics | src/solutions/day22.rs:107-139 | `check_gravity` panics exactly when the brick is missing, one of its columns panics, or it sits at z = 0 |
| Day22Gravity.NextBelow | src/solutions/day22.rs:114-121 | the column loop stops at the first position holding another brick |
| Day22Universe.IndexedStep | src/solutions/day22.rs:83-98 | adding a column keeps the tables consistent: a brick records (column, p) exactly when it is at position p of that column's vector |
| Day22Universe.ByZOrder | src/solutions/day22.rs:141-148 | the model's sort is an order `get_cubes_by_z` may return |
| Day22Universe.Lower | src/solutions/day22.rs:155-158 | lowering moves a brick straight down and keeps its height |
| Day22Universe.SettleLowers | src/solutions/day22.rs:150-162 | settling keeps the number of bricks and only moves each one straight down |
| Day22Universe.SettleGrounded | src/solutions/day22.rs:150-162 | every brick the order visits ends at height 1 or more |
| Day22Universe.CriticalMeaning | src/solutions/day22.rs:169-180 | a removal is critical exactly when some scanned brick would fall without it, and every scanned brick's fall is defined |
| Day22Universe.CountBound | src/solutions/day22.rs:164-188 | the non-critical count is at most the number of bricks after the start of the order |
| Day22Universe.ChainFalls | src/solutions/day22.rs:197-209 | a brick that falls is counted once, lowered, and raises the window to its top |
| Day22Universe.ChainBound | src/solutions/day22.rs:194-212 | for one removal at most the bricks after it in the order fall |
| Day22Universe.SafeMovesNothing | src/solutions/day22.rs:164-212 | a brick `non_critical_1` counts as safe to remove makes nothing fall in `non_critical_2` |
| Day22Universe.ColumnTables | src/solutions/day22.rs:83-98 | the column loop, in any order of the columns, gives every column of the raw map its vector of brick indices in arranged order, with consistent position tables |
| Day22Universe.AddColumn | src/solutions/day22.rs:87-97 | one column's vector is recorded and the tables stay consistent |
| Day22Universe.Universe.constructor | src/solutions/day22.rs:58-105 | the universe holds the bricks, one vector per occupied column listing its bricks by descending (z, index), and position tables consistent with the vectors |
| Day22Universe.Universe.CheckGravity | src/solutions/day22.rs:107-139 | the loops compute the fall defined by `Gravity`, or `None` where the source panics |
| Day22Universe.Universe.ColumnDistance | src/solutions/day22.rs:111-135 | one column of the loop gives that column's outcome: clear, a gap, or a panic |
| Day22Universe.Universe.Settle | src/solutions/day22.rs:150-162 | settling in a `get_cubes_by_z` order lowers the bricks one by one as `SettleFrom` defines, and succeeds exactly when no step panics |
| Day22Universe.Universe.Critical | src/solutions/day22.rs:169-180 | the inner loop of `non_critical_1` reports whether some scanned brick falls, as `CriticalFrom` defines |
| Day22Universe.Universe.NonCritical1 | src/solutions/day22.rs:164-188 | the count is the number of removals that make no scanned brick fall, as `CountFrom` defines |
| Day22Universe.Universe.Chain | src/solutions/day22.rs:194-209 | on the clone, the inner loop of `non_critical_2` counts and lowers the falling bricks as `ChainFrom` defines, leaving the tables alone |
| Day22Universe.Universe.NonCritical2 | src/solutions/day22.rs:190-219 | the total is the sum over removals of the bricks that fall, as `TotalFrom` defines |
| Day22Universe.Settled | src/solutions/day22.rs:221-226 | the bricks are read, built into a universe and settled, and their number is kept |
| Day22Universe.PartOne | src/solutions/day22.rs:221-227 | an unreadable input panics; otherwise the answer is at most the number of bricks |
| Day22Universe.PartTwo | src/solutions/day22.rs:229-235 | an unreadable input panics |
| Day17.Delta | src/solutions/day17.rs:37-44 | every direction steps exactly one block, along one axis |
| Day17.TurnBack | src/solutions/day17.rs:46-53 | the opposite direction is a different one and steps the opposite way |
| Day17.TurnBackTwice | src/solutions/day17.rs:46-53 | turning back twice gives the direction one started with |
| Day17.CrucibleAllows | src/solutions/day17.rs:158-168 | part one's rule allows a move exactly when it does not reverse and does not make a fourth move in a line |
| Day17.UltraAllows | src/solutions/day17.rs:177-191 | part two's rule allows a move exactly when it does not reverse, does not make an eleventh move in a line, and does not turn before four moves |
| Day17.UltraStartsRight | src/solutions/day17.rs:177-191 | from the start (facing right, no moves) part two's first move can only be right |
| Day17.Digits | src/solutions/day17.rs:20-21 | a line reads as the value of each of its characters exactly when all are digits; otherwise some character is not a digit |
| Day17.Parse | src/solutions/day17.rs:10-26 | what reads is a rectangular map of digits below ten |
| Day17.ParseRoundTrip | src/solutions/day17.rs:10-26 | writing a rectangular map of digits a line per row and reading it back gives the same map |
| Day17Search.Goal | src/solutions/day17.rs:72 | the goal is the bottom-right block, on the map |
| Day17Search.LeTotal | src/solutions/day17.rs:56-63 | the derived order on states is total, so the heap's minimum is well defined |
| Day17Search.MinIndex | src/solutions/day17.rs:96 | the popped entry is at or below every entry of the heap in the derived order |
| Day17Search.Step | src/solutions/day17.rs:109-131 | a taken move lands on the map and faces the direction moved |
| Day17Search.StepMeaning | src/solutions/day17.rs:109-131 | a move is taken exactly when the rule allows it and the block it enters is on the map; the run becomes one on a turn and grows by one going straight; the entered block's heat loss is added |
| Day17Search.CrucibleRuns | src/solutions/day17.rs:158-168 | every walk under part one's rule keeps its run between one and three |
| Day17Search.UltraRuns | src/solutions/day17.rs:177-191 | every walk under part two's rule keeps its run between one and ten, and turns only after at least four moves in a line |
| Day17Search.Expand | src/solutions/day17.rs:100-147 | every allowed on-map successor of the popped state ends up recorded at no more than its cost; recorded costs only go down; pushed states beat the cost recorded before; every recorded cost and heap entry is reached by a walk |
| Day17Search.Relax | src/solutions/day17.rs:106-146 | one direction: only keys of that direction change, only downward, and its successor ends up recorded at no more than its cost |
| Day17Search.Record | src/solutions/day17.rs:141-145 | `or_insert(usize::MAX)` then a lower cost is recorded and the state pushed, exactly when the cost beats the recorded one; no other key changes |
| Day17Search.FindMinPath | src/solutions/day17.rs:65-151 | a returned cost is the heat loss of a walk the rule allows from the top-left to the bottom-right block |
| Day17Search.PartOne | src/solutions/day17.rs:153-170 | the input reads exactly when there is an answer; a found answer is the heat loss of a walk allowed by part one's rule |
| Day17Search.PartTwo | src/solutions/day17.rs:172-193 | the input reads exactly when there is an answer; a found answer is the heat loss of a walk allowed by part two's rule |
| Day24.LastRow | src/solutions/day24.rs:30-36 | the last row holding a character is never past the end of the map |
| Day24.RowArrowsMeaning | src/solutions/day24.rs:34-59 | a row's blizzards are exactly its arrows, each at its column with its direction |
| Day24.ArrowsMeaning | src/solutions/day24.rs:33-61 | the blizzards are exactly the arrows of the map, each at its tile with its direction |
| Day24.RowOpenMeaning | src/solutions/day24.rs:37-56 | a row's open tiles are exactly its characters that are not walls |
| Day24.OpenMeaning | src/solutions/day24.rs:33-61 | the open set is exactly the tiles of the map that are not walls |
| Day24.WidestMeaning | src/solutions/day24.rs:36 | `max_x` is the largest column of any character: no row reaches past it, and it is 0 or some row ends at it |
| Day24.LastRowMeaning | src/solutions/day24.rs:36 | `max_y` is the last row holding a character: no later row holds one, and it is 0 or its row holds one |
| Day24.ScanRow | src/solutions/day24.rs:34-60 | a row panics exactly when it holds an unknown character; otherwise its arrows and open tiles are added and the largest column and row updated |
| Day24.ParseInput | src/solutions/day24.rs:26-69 | the map panics exactly when some character is unknown; otherwise it reads as the valley it describes |
| Day24.BlizzardAt | src/solutions/day24.rs:113-130 | the position panics exactly when the blizzard's axis has no room (`rem_euclid` by zero) |
| Day24.BlizzardRange | src/solutions/day24.rs:113-130 | a blizzard keeps its other coordinate and stays within 1 and `max - 1` on its axis |
| Day24.BlizzardStart | src/solutions/day24.rs:113-130 | at minute 0 a blizzard between the walls is where the map shows it |
| Day24.ModAbs | src/solutions/day24.rs:116-127 | `rem_euclid` depends only on the size of the divisor |
| Day24.ModPeriod | src/solutions/day24.rs:116-127 | adding or taking the divisor leaves the remainder |
| Day24.BlizzardPeriodic | src/solutions/day24.rs:113-130 | every blizzard is back where it was after `max_x - 1` (horizontal) or `max_y - 1` (vertical) minutes |
| Day24.ModStep | src/solutions/day24.rs:116-127 | one more or one less wraps the remainder around |
| Day24.BlizzardMoves | src/solutions/day24.rs:113-130 | each minute a blizzard moves one tile its way and one at the wall reappears at the other side |
| Day24.BlizzardTiles | src/solutions/day24.rs:104-136 | the tiles are exactly those some blizzard is on at that minute; it panics exactly when some blizzard's axis has no room |
| Day24Search.MinIndex | src/solutions/day24.rs:84-94 | the popped point has the least `time + heuristic` in the queue |
| Day24Search.MovesAreSteps | src/solutions/day24.rs:163 | the five moves tried are exactly the steps of at most one tile, waiting included |
| Day24Search.WalkBound | src/solutions/day24.rs:142-163 | a walk of `n` minutes ends at most `n` tiles from where it began, so the heuristic never overestimates |
| Day24Search.WalkAppend | src/solutions/day24.rs:204-206 | a walk followed by a walk from where and when it ended is a walk |
| Day24Search.Push | src/solutions/day24.rs:174-182 | a successor one minute later on an open, blizzard-free tile next to a reached point is reached |
| Day24Search.Expand | src/solutions/day24.rs:163-183 | every move onto an open tile that no blizzard is on at the next minute is marked visited; pushed points are one minute later and reached by a walk; pairs are queued once |
| Day24Search.Find | src/solutions/day24.rs:138-187 | an arrival minute is that of a walk from the start to the end, never earlier than their distance; every (tile, minute) pair is queued at most once |
| Day24Search.Legs | src/solutions/day24.rs:198-207 | there, back and there again form one walk of at least three crossings |
| Day24Search.PartOne | src/solutions/day24.rs:189-196 | the map panics exactly when a character is unknown; an arrival is the length of a walk from the entrance to the exit |
| Day24Search.PartTwo | src/solutions/day24.rs:198-207 | each leg leaves when the previous one arrives; the answer is the length of one walk entrance-exit-entrance-exit, at least three crossings long |
| Day19.WithSpan | src/solutions/day19.rs:86-106 | replacing the span of one rating changes that span and no other |
| Day19.ContainsWithSpan | src/solutions/day19.rs:86-106 | a part lies in the narrowed box when it lies in the box and its rating lies in the new span |
| Day19.SidesVerdict | src/solutions/day19.rs:73-76 | ratings up to the lower piece's last one get the lower verdict of `eval`, those from the upper piece's first one the upper verdict |
| Day19.EvalRangeAsWritten | src/solutions/day19.rs:65-109 | `eval_range` as written gives one or two pieces |
| Day19.AsWrittenCounterexample | src/solutions/day19.rs:78-80 | a `<` test whose value is the top of the span flags the whole box as passing, yet its top rating fails the test |
| Day19.AsWrittenCounterexampleGreater | src/solutions/day19.rs:82-84 | a `>` test whose value is the bottom of the span flags the whole box as passing, yet its bottom rating fails the test |
| Day19.EvalRange | src/solutions/day19.rs:65-109 | the corrected `eval_range` gives one or two pieces |
| Day19.EvalRangeSound | src/solutions/day19.rs:65-109 | the corrected pieces partition the box, each differs from it only in the rating the test reads, and each piece's verdict is `eval`'s verdict on every part in it |
| Day19.AsWrittenAgreesOffBoundary | src/solutions/day19.rs:78-84 | away from the two boundary cases the written guards cut every box as the corrected ones do |
| Day19Flow.FirstApplicable | src/solutions/day19.rs:211-216 | the step taken is the first whose condition holds, and none is taken only when no condition holds |
| Day19Flow.StepDecides | src/solutions/day19.rs:211-226 | a step that applies, after steps that all do not, decides |
| Day19Flow.ProcessFuelMonotone | src/solutions/day19.rs:205-228 | more fuel does not change a verdict that was reached |
| Day19Flow.NoStepLoops | src/solutions/day19.rs:208-227 | a part that no step of its workflow lets through never gets a verdict: `process` loops forever |
| Day19Flow.Process | src/solutions/day19.rs:205-228 | the loop of `process` gives the verdict of following the first applicable step of each workflow from "in" |
| Day19Flow.ActionRoundTrip | src/solutions/day19.rs:155-163 | a written action reads back as that action |
| Day19Flow.ConditionRoundTrip | src/solutions/day19.rs:18-34 | a written condition before `:` reads back as that condition |
| Day19Flow.StepRoundTrip | src/solutions/day19.rs:17-41 | reading a written step gives the step back |
| Day19Flow.CollectNames | src/solutions/day19.rs:165-180 | the workflows collected are exactly those some line declares, and collecting fails exactly when some line's steps do not parse |
| Day19Flow.LastEntryWins | src/solutions/day19.rs:177-179 | a name declared twice keeps the steps of its last line, as `collect` into a map does |
| Day19Flow.ParsePart | src/solutions/day19.rs:189-203 | a line reads as a part exactly when it matches the pattern, and its ratings fit a `u16` |
| Day19Flow.WrittenFields | src/solutions/day19.rs:9 | the fields of a written part are its four written ratings |
| Day19Flow.PartRoundTrip | src/solutions/day19.rs:189-203 | reading a written part gives the part back |
| Day19Ranges.PassForward | src/solutions/day19.rs:263-275 | a part of a state that passes its step is accepted when the step accepts, or one workflow further when it sends |
| Day19Ranges.FailForward | src/solutions/day19.rs:281-286 | a part of a state that fails its step moves to the next step |
| Day19Ranges.ApplySound | src/solutions/day19.rs:263-275 | applying the action to a box that passes the step yields accepted boxes and sound states inside it |
| Day19Ranges.FailSound | src/solutions/day19.rs:281-286 | a box that fails the step waits soundly at the next step |
| Day19Ranges.HandleSound | src/solutions/day19.rs:261-291 | handling a sound state yields accepted boxes whose parts `process` accepts, and sound states, all inside the popped box |
| Day19Ranges.RoundSound | src/solutions/day19.rs:260-292 | one round of the worklist keeps its invariant |
| Day19Ranges.ExploreSound | src/solutions/day19.rs:245-295 | every box the worklist accepts lies in the starting box and holds only parts that `process` accepts |
| Day19Ranges.InitialSound | src/solutions/day19.rs:246-258 | every part starts at "in" before any workflow |
| Day19Ranges.EvalRangeCount | src/solutions/day19.rs:65-109 | the pieces of a box hold each of its parts exactly once and no other part |
| Day19Ranges.RejectNotAccepted | src/solutions/day19.rs:263-275 | a part of a sound state that a rejecting step applies to is not accepted by `process` |
| Day19Ranges.ApplyCount | src/solutions/day19.rs:263-275 | applying the action to a box counts a part at most once, and exactly once when `process` accepts it |
| Day19Ranges.PiecesCount | src/solutions/day19.rs:277-287 | handling the pieces counts a part at most as often as the pieces hold it, and exactly as often when `process` accepts it |
| Day19Ranges.HandleCount | src/solutions/day19.rs:261-291 | handling a state counts each part of its box at most once, exactly once when `process` accepts it, and no other part |
| Day19Ranges.RoundExact | src/solutions/day19.rs:260-292 | one round keeps the accepted and queued boxes a partition of the accepted parts of the starting box, overlapping nowhere |
| Day19Ranges.ExploreExact | src/solutions/day19.rs:245-295 | when the worklist empties, the accepted boxes hold each accepted part of the starting box exactly once and no other part |
| Day19Ranges.InitialExact | src/solutions/day19.rs:246-258 | the starting box alone holds each part once |
| Day19Ranges.ExactlyAcceptedCovers | src/solutions/day19.rs:245-295 | such boxes cover every accepted part of the starting box, hold only accepted parts, and are pairwise disjoint |
| Day19Ranges.CountTwo | src/solutions/day19.rs:310-324 | a part held by two different boxes is counted twice, so boxes that count each part at most once do not overlap |
| Day19Ranges.FindAcceptingRanges | src/solutions/day19.rs:245-295 | the loop follows the worklist; every box it accepts holds only parts `process` accepts, and when the worklist empties the boxes cover every accepted part of the starting box exactly once |
| Day19Ranges.PartTwo | src/solutions/day19.rs:310-324 | the answer is the sum of the volumes of the accepted boxes, which when the worklist empties are disjoint and cover exactly the accepted parts of the starting box |
| Day19Ranges.RatingTotalFuel | src/solutions/day19.rs:303-307 | a total that was reached stays the same with more fuel |
| Day19Ranges.PartOne | src/solutions/day19.rs:297-308 | the answer is the rating sum of the parts `process` accepts, `None` when `process` gets no verdict for some part |
| Day19Ranges.NoneStays | src/solutions/day19.rs:303-307 | once a part gets no verdict the total has none either |
| Day19Ranges.ParseParts | src/solutions/day19.rs:189-203 | at most one part per line |
| Day20.Process | src/solutions/day20.rs:11-36 | a flip-flop ignores a high pulse and toggles on a low one, reporting its new state; a conjunction records the pulse in the sender's slot only and emits low exactly when every slot is high; a broadcaster relays the pulse |
| Day20.FlipFlopParity | src/solutions/day20.rs:13-24 | a flip-flop's final state is its first one flipped by the parity of the low pulses it received |
| Day20.ParseLine | src/solutions/day20.rs:62-75 | a line fails exactly when it has no " -> " or nothing before it; `%` declares a flip-flop starting off, `&` a conjunction with no slots, anything else a broadcast module |
| Day20.ParseLineRoundTrip | src/solutions/day20.rs:62-75 | writing a parsed line gives the line back, and a broadcast module's name cannot be taken for a prefixed one |
| Day20.Declarations | src/solutions/day20.rs:62-86 | every line's name is declared, with its initial kind; a later line declaring the same name replaces the earlier one |
| Day20.Declare | src/solutions/day20.rs:62-86 | the first loop declares every module with its initial state and its outputs, and no senders yet |
| Day20.WireTargets | src/solutions/day20.rs:93-105 | the step for one module keeps the declared names and every module's outputs |
| Day20.WireTargetsInput | src/solutions/day20.rs:94-96 | after the step for a module, a declared target has recorded it once per listing |
| Day20.WireTargetsKind | src/solutions/day20.rs:98-101 | after the step for a module, a declared conjunction target has one more low slot per listing, and any other kind is untouched |
| Day20.WireOne | src/solutions/day20.rs:91-105 | the inner loop of the wiring pass does the step for one module |
| Day20.WireAll | src/solutions/day20.rs:88-106 | the whole wiring pass keeps the declared names and every module's outputs |
| Day20.WireAllInput | src/solutions/day20.rs:88-106 | the wiring pass records exactly the senders of a name, in the order the keys are visited |
| Day20.WireAllKind | src/solutions/day20.rs:88-106 | the wiring pass gives a conjunction one low slot per sender |
| Day20.Wire | src/solutions/day20.rs:88-106 | the outer loop performs the wiring pass |
| Day20.Build | src/solutions/day20.rs:58-118 | the two tables are the declarations, wired in the order of the keys, with the button as the broadcaster's last sender, and they satisfy the wiring invariant |
| Day20.InitialWired | src/solutions/day20.rs:58-118 | the tables `from_input` builds give every conjunction one slot per sender |
| Day20Press.Emit | src/solutions/day20.rs:159-163 | one pulse per output, in output order, from the module at its emitted level |
| Day20Press.Tally | src/solutions/day20.rs:144-152 | each high slot of the watched conjunction adds one to its counter; a high slot past the four counters is a panic |
| Day20Press.PositionOrZero | src/solutions/day20.rs:156 | the sender's slot is its first position among the inputs, or 0 when it is not there |
| Day20Press.React | src/solutions/day20.rs:135-163 | a module's reaction keeps every module's shape and the four counters |
| Day20Press.StepForm | src/solutions/day20.rs:129-164 | one step pops the head into the log and counts it, and queues what it emits behind the waiting pulses |
| Day20Press.AccountedStep | src/solutions/day20.rs:129-133 | one step counts exactly one more pulse, and keeps the pulses counted equal to the pulses popped |
| Day20Press.StepKeeps | src/solutions/day20.rs:129-164 | one step keeps the bookkeeping and the module shapes |
| Day20Press.RunPressKeeps | src/solutions/day20.rs:120-167 | a whole press keeps the bookkeeping and the module shapes, and pops exactly the pulses it counts |
| Day20Press.DropsUnknown | src/solutions/day20.rs:135-138 | a pulse to a name without a module is counted and dropped: nothing else changes and nothing is queued |
| Day20Press.StepReacts | src/solutions/day20.rs:135-163 | the step for a pulse to a module is a panic, or the module's reaction with the head popped and counted |
| Day20Press.EmitsInOrder | src/solutions/day20.rs:154-163 | a module that reacts changes only its own state, by `process`, and queues one pulse per output behind everything already waiting |
| Day20Press.Presses | src/solutions/day20.rs:175-179 | up to `n` presses, each from the states the previous one left, stopping after the first press that does not finish |
| Day20Press.PressesSnoc | src/solutions/day20.rs:175-179 | one more press appends its outcome, run from the states the earlier presses left |
| Day20Press.PressesPrefix | src/solutions/day20.rs:175-179 | asking for more presses changes nothing after a press that does not finish |
| Day20Press.FirstFiringIsFirst | src/solutions/day20.rs:202-206 | the recorded press is the first after which a slot fired, and no record means it never fired |
| Day20Press.FirstFiringSnoc | src/solutions/day20.rs:202-206 | a finished press extends the first-firing record exactly as the loop does |
| Day20Press.PrefixesNotFound | src/solutions/day20.rs:211 | once recorded, a slot stays recorded, so no shorter prefix recorded every slot |
| Day20Press.Record | src/solutions/day20.rs:202-206 | the update keeps the four slots |
| Day20Press.RecordFirstFirings | src/solutions/day20.rs:202-206 | recording each finished press keeps the table equal to the first firings so far |
| Day20Press.Recorded | src/solutions/day20.rs:214-216 | the values of a full table, in slot order |
| Day20Press.RecordedCycles | src/solutions/day20.rs:211-216 | a full table holds exactly the cycles |
| Day20Press.FullTable | src/solutions/day20.rs:211 | the table is full exactly when every slot was found |
| Day20Press.StopAtFailure | src/solutions/day20.rs:193-220 | stopping at a press that does not finish gives no answer and that press's status |
| Day20Press.StopWhenFound | src/solutions/day20.rs:211-219 | stopping once the table is full gives the lcm of the cycles |
| Day20Press.StopAtLimit | src/solutions/day20.rs:193-220 | stopping after the last allowed press without a full table gives no answer |
| Day20Circuit.Circuit.FromInput | src/solutions/day20.rs:58-118 | `from_input` builds the declared, wired tables and keeps the wiring invariant |
| Day20Circuit.Circuit.Deliver | src/solutions/day20.rs:154-163 | delivering the head pulse changes the module states as the module's reaction says |
| Day20Circuit.Circuit.HandleHead | src/solutions/day20.rs:129-164 | one turn of the loop is one step of the press, and a panic changes nothing |
| Day20Circuit.Circuit.PushButton | src/solutions/day20.rs:120-167 | one press updates the module states in place and returns the pulse counts and the counters of the press |
| Day20Circuit.Circuit.PressNext | src/solutions/day20.rs:175-179 | one more press extends the outcomes and, when it finishes, the running totals |
| Day20Circuit.Circuit.PressRepeatedly | src/solutions/day20.rs:175-179 | `n` presses in a row sum the pulse counts of every press, stopping early at a press that does not finish |
| Day20Circuit.Circuit.PressUntilCycles | src/solutions/day20.rs:193-220 | presses until every watched slot has fired and returns the lcm of their first firings, or stops without an answer at a failing press or at the press limit |
| Day20Circuit.Circuit.PulseProduct | src/solutions/day20.rs:173-183 | the product of the total high and low pulse counts of `n` presses |
| Day20Circuit.CheckCycles | src/solutions/day20.rs:202-219 | the end of one press records the first firings and, once every slot is recorded, folds the cycles with lcm |
| Day20Circuit.RecordFirings | src/solutions/day20.rs:202-206 | one press's update of the recorded cycles |
| Day20Circuit.FoldLcm | src/solutions/day20.rs:212-216 | the fold is the lcm of the recorded cycles, starting from 1 |
| Day20Parts.PartOne | src/solutions/day20.rs:170-184 | 1000 presses on a fresh circuit, carrying the states over, give the product of the total high and low pulses |
| Day20Parts.PartTwo | src/solutions/day20.rs:186-221 | the answer is the lcm of each watched slot's first firing press, found at the first press after which every slot has fired |
| NumInteger.Gcd | src/solutions/day20.rs:215 | the gcd of two numbers, not both zero, is positive |
| NumInteger.GcdDivides | src/solutions/day20.rs:215 | the gcd divides both numbers |
| NumInteger.Bezout | src/solutions/day20.rs:215 | the gcd is an integer combination of the two numbers |
| NumInteger.LcmCommon | src/solutions/day20.rs:215 | for positive numbers `lcm` is a positive common multiple, and gcd times lcm is their product |
| NumInteger.LcmLeast | src/solutions/day20.rs:215 | `lcm` divides every common multiple |
| NumInteger.LcmOfIsLeast | src/solutions/day20.rs:212-216 | for positive cycles the fold is their least common multiple: each divides it, and it divides every common multiple |
| Day21.JobOf | src/solutions/day21.rs:22-38 | a read number is an `i64` |
| Day21.ReadOp | src/solutions/day21.rs:19-40 | a line reads as a name and a job, and a number it holds is an `i64` |
| Day21.CollectAll | src/solutions/day21.rs:86 | the map holds exactly the names of the lines, each with the job of its last line, and exists exactly when every line reads |
| Day21.Entries | src/solutions/day21.rs:19-40 | `read_op` reads every line |
| Day21.Jobs64Holds | src/solutions/day21.rs:26 | every number a job holds is an `i64` |
| Day21.OpRoundTrip | src/solutions/day21.rs:29-35 | a written operator reads back as that operator |
| Day21.ParseShowInt | src/solutions/day21.rs:26 | a written `i64` reads back as that number |
| Day21.SplitAtColon | src/solutions/day21.rs:21 | `split_once(": ")` cuts a written line after its name |
| Day21.WordsOfOperation | src/solutions/day21.rs:22-28 | the words of a written operation are its two names and its operator |
| Day21.ReadConstantLine | src/solutions/day21.rs:26 | a written number line reads back as that number |
| Day21.ReadOperationLine | src/solutions/day21.rs:27-36 | a written operation line reads back as that operation |
| Day21.ReadOpRoundTrip | src/solutions/day21.rs:19-40 | every well-formed job is read back from its line |
| Day21.MarkedMeansHuman | src/solutions/day21.rs:52-71 | in a tree `transform` builds, the flag says exactly whether `humn` is below |
| Day21.Transform | src/solutions/day21.rs:52-71 | the tree below a name: a leaf exactly for a number job, flagged exactly for `humn`, and `None` for a missing name or a cycle |
| Day21.Apply | src/solutions/day21.rs:77-80 | one operation gives an `i64`; overflow and division by zero give `None`, and `/` truncates toward zero |
| Day21.Eval | src/solutions/day21.rs:74-82 | `eval` of a tree with `i64` leaves gives an `i64` |
| Day21.EvalExact | src/solutions/day21.rs:74-82 | `eval` never wraps around: when it succeeds it gives the exact value |
| Day21.PartOne | src/solutions/day21.rs:85-89 | `part_one` is the exact value of the tree below `root` |
| Day21.Undo | src/solutions/day21.rs:109-118 | undoing one operation gives an `i64`, or `None` on overflow or division by zero |
| Day21.Substitute | src/solutions/day21.rs:100-120 | putting a number in place of `humn` keeps the flags and changes no tree without `humn` |
| Day21.UndoStep | src/solutions/day21.rs:109-118 | undoing one step is exact on an exact path: the operation on the undone value and the fixed operand gives the value again |
| Day21.InvertSolves | src/solutions/day21.rs:106-120 | on a single, exact path, putting the loop's result in place of `humn` makes the target evaluate to the value |
| Day21.HumanBalancesRoot | src/solutions/day21.rs:91-121 | with `part_two`'s answer in place of `humn`, both sides of `root` evaluate to the same value |
| Day21.SolveHuman | src/solutions/day21.rs:95-120 | the loop ends within the depth of the tree with the value the inversion gives |
| Day21.PartTwo | src/solutions/day21.rs:91-121 | `part_two` is the inversion of the tree below `root` |
| Day25.DigitValue | src/solutions/day25.rs:7-14 | a digit is worth between -2 and 2 |
| Day25.Decode | src/solutions/day25.rs:2-20 | the decoding loop gives the value of the numeral |
| Day25.ValueSnoc | src/solutions/day25.rs:6-17 | a digit more on the right multiplies the value by five and adds the digit |
| Day25.DigitChar | src/solutions/day25.rs:28-41 | the digit written for a remainder is a numeral digit |
| Day25.SnafuDigits | src/solutions/day25.rs:27-46 | the numeral written holds numeral digits only |
| Day25.DigitStep | src/solutions/day25.rs:28-43 | one place: the number is five times the rest plus the digit written |
| Day25.SnafuRoundTrip | src/solutions/day25.rs:1-47 | reading the written numeral gives the number back |
| Day25.SnafuLeading | src/solutions/day25.rs:27-46 | a positive number's numeral starts with `1` or `2` |
| Day25.Encode | src/solutions/day25.rs:27-46 | the loop writes the numeral of a positive number, and nothing for a number that is not positive |
| Day25.EncodeStep | src/solutions/day25.rs:28-43 | one round moves the low base-5 digit, carried, from the number still to encode to the digits pushed, so the numeral read from both together is unchanged |
| Day25.PartOne | src/solutions/day25.rs:23-47 | `part_one` writes the sum of the decoded lines, read back exactly, with a leading `1` or `2` |
| Day25.ExampleNumeral | src/solutions/day25.rs:57-62 | the example's sum, 4890, is written "2=-1=0" |
| Common.IndexOf | src/solutions/day21.rs:21 | the first occurrence of the separator from a position, and none when there is none |
| Common.SplitOnce | src/solutions/day21.rs:21 | `split_once` cuts at the first occurrence of the separator, the pieces rebuild the text, and it fails exactly when the separator does not occur |
| Common.Split | src/solutions/day15.rs:38 | `split` gives at least one piece |
| Common.JoinSplit | src/solutions/day15.rs:38 | splitting loses nothing: joining the pieces gives the text back |
| Common.SplitPiecesFree | src/solutions/day15.rs:38 | no piece of a split holds the separator |
| Common.SplitJoin | src/solutions/day15.rs:38 | splitting pieces joined by a one-character separator none of them holds gives the pieces back |
| Common.LinesRoundTrip | src/solutions/day13.rs:27 | lines written one after another, each ended by a line feed, are read back by `lines` |
| Common.Decimal | src/solutions/day15.rs:29 | the decimal digits of a number, at least one |
| Common.DecimalRoundTrip | src/solutions/day15.rs:29 | reading a written number gives it back |
| Common.ParseNat | src/solutions/day15.rs:29 | `parse` for an unsigned type succeeds exactly on an optional `+` and digits only, with a value that fits |
| Common.ParseInt | src/solutions/day21.rs:26 | `parse` for a signed type gives a value in the type's range |
| Common.ParseNatDecimal | src/solutions/day15.rs:29 | parsing a written value that fits gives it back |
| Common.TDivRem | src/solutions/day21.rs:80 | Rust's truncating quotient and remainder rebuild the dividend, with the remainder smaller than the divisor |
| Common.TDivExact | src/solutions/day21.rs:114-117 | an exact division is undone by multiplying back |
| Common.Number | src/solutions/day16.rs:29 | nom's unsigned parser reads a run of digits that fits, and consumes at least one character |
| Common.NumberRoundTrip | src/solutions/day16.rs:29 | a written number followed by a non-digit is read back |
| Common.Tag | src/solutions/day16.rs:26 | `tag` succeeds only on a text that starts with it, leaving the rest |
| Common.TagRoundTrip | src/solutions/day16.rs:26 | `tag` takes exactly its text off the front |
| Common.ParseEach | src/solutions/day22.rs:221 | every line parses, or the whole input fails |

## Left out

- Day 1: the `u32` sum is not wrapped (it is at most 99 per line, `CalibrationBound`), and the example answers 142 and 281 are not proved.
- Day 2: a letter other than A, B, C or X, Y, Z (`unimplemented!`) is excluded by a `requires` on the parts; the `u32` sums are not wrapped.
- Day 3: the numbers and the `u16` indices are unbounded (neither `u32` wrap-around nor `as NumberIdx` truncation is modelled), the gear product is not wrapped, and the example answers 4361 and 467835 are not proved.
- Day 3: a digit whose cell `y * size + x` falls at or past `size * size` is the index panic of `parse_input` (`None`); a digit of an overlong line whose cell is still inside the table is written into a later row's cell, as `Day03Parse.ScanChar` does; the `size - 1` underflow of an empty input is avoided because an empty input has no symbols.
- Day 4: a line without ',' or '-' or with a field that is not a `u32` (`expect`) is excluded by a `requires`; the example answers 2 and 4 are not proved.
- Day 5: the `usize` numbers of an instruction are unbounded, `from - 1` with `from == 0` and an index past the stacks are panics (`None`), and the example answers "CMZ" and "MCD" are not proved.
- Day07.HistogramFacts: states the sum, order and joker count of the histogram, not the count of each kind of card.
- Day 7: a line that does not parse (`expect`, `assert_eq!`, `from_char`'s `panic!`) is excluded by a `requires` on `Solve`; the `usize` products and sum are unbounded before the final `as u32`; the example answers 6440 and 5905 are not proved.
- Day 8: the `i32` coordinates and the `usize` product of the four distances are unbounded; a forest whose rows are shorter than their count is the index panic (`None`); the example answers 21 and 8 are not proved.
- Day 9: a word that is not an `i64` (`unwrap`) is excluded by a `requires`; the `i64` arithmetic is not wrapped.
- Day 10: a line that is not "noop" or "addx n" (`expect`, `panic!`) is excluded by a `requires`; `i32` register and product arithmetic is not wrapped; the example answer 13140 is not proved.
- Day 11: `usize` arithmetic of the moved coordinates and of the total is not wrapped; only the `u32` scan is.
- Day11Pairs.ExampleAnswers: derives 8410 from the example's other two answers instead of evaluating the example image.
- Day12Input.PartOne: a line that does not parse, or a row with 64 or more unknown springs (the `u64` shift overflows), is excluded by a `requires`; the `usize` sum is not wrapped.
- Day 12: `part_two` returns the constant 0 (its body is commented out), so it has no model, and the test expecting 525152 from it fails as written; the example rows' counts 1, 4, 1, 1, 4 and 10 and the total 21 are not proved; the parallel iteration of `brute_force_row` is a sequential count, which gives the same number.
- Day12.CheckIsRuns: holds for positive groups only; a zero group makes the check's answer differ from the runs.
- Day13Score.ProcessGrid: input that does not parse, or a pattern with no rows or no columns (`cols() - 1` underflows), is excluded by a `requires`; the `usize` total is not wrapped; the example answers 405 and 400 are not proved.
- Day14Cycle.PartTwo: states the answer when there is one; `None` stands for the `1_000_000_000 - i` underflow, which the model does not show unreachable. The `HashMap` of seen platforms is a `map`.
- Day 14: input that does not parse is excluded by a `requires`; the `usize` arithmetic of `get_weight` is not wrapped; the example answers 136 and 64 and the input answer 102509 are not proved.
- Grids: the grid crate is not part of this model; its `from_vec`, `push_row` and `rotate_*` are modelled on rows of cells as the crate documents them.
- Day 15: a step that does not parse (`expect`) is excluded by a `requires`; the `usize` focusing-power sum is not wrapped; characters are taken by their code point as `c as u32` does; the example answers 1320 and 145 are not proved.
- Day 16: the `dbg!` output is left out; the `i32` arithmetic of `rem * flow` and the totals is not wrapped; the example answers 1651 and 1707 are not proved.
- Day 16: the `u64` visited mask is a set of valve numbers; the 64-valve `assert!` keeps every number below 64, so the sets are the masks.
- Day 16: the iteration orders of `HashMap` (`values`, `keys`, the distance maps) are left open as a choice; the answers do not depend on them.
- Day 19: `process` and `find_accepting_ranges` loop without bound; the model takes a `fuel` bound and reports when it runs out.
- Day19Ranges.PartTwo: the answer is proved to be the sum of the volumes of boxes that partition the accepted parts; that this sum equals the number of those parts is not proved as a set cardinality, and a run that stops early (`Stuck`, `OutOfFuel`) has no such guarantee.
- Day 19: the worklist uses the corrected `EvalRange`; the as-written guards are modelled by `EvalRangeAsWritten` and shown wrong under "Findings".
- Day 19: a missing workflow, a step past the end of a workflow, a bad variable or relation character are panics (`Stuck` or `None`); the regular expressions are modelled as line-by-line matching of the two forms; the `u128` and `usize` sums are not wrapped; the example answers 19114 and 167409079868000 are not proved.
- Day 20: `from_input` does not create a module for a name that is only a target; a pulse to such a name is counted and dropped, and the model does the same.
- Day 20: the `HashMap` key order of the wiring pass is a parameter; `push_button` handles at most `fuel` pulses per press, and `part_two`'s unbounded loop makes at most `maxPresses` presses.
- Day20Parts.PartTwo: the example test expects 0; with no module named `hf` no slot can fire, so the loop never ends, and the model returns no answer at the press limit.
- Day 20: the `println!` output is left out; `usize` counters and products are not wrapped; the example answer 32000000 is not proved; `num::integer::lcm` is not part of this model and is modelled by `NumInteger.Lcm`.
- Day21.PartOne: states the answer when there is one; the cases that give `None` (a bad line, a missing or cyclic name, overflow, division by zero) are described, not proved to be the only ones.
- Day21.PartTwo: the same; the answer balances `root` only on a single, exact path to `humn`, which `HumanBalancesRoot` requires.
- Day 21: the recursion of `transform` runs until a stack overflow on a cyclic input; the model returns `None` there. The example answers 152 and 301 are not proved.
- Day 25: a character that is not a numeral digit is excluded by a `requires`, and so is a line longer than 27 digits (the `i64` weight would overflow); the `i64` sum is not wrapped. `part_two` returns the constant 0 and has no model.
- Day18: coordinates are unbounded integers; the `i16` arithmetic of the norms and of `max_radius` is not modelled (the parsed values are `i16`); the example answers 64 and 58 are not proved.
- Day23: coordinates are unbounded integers; the `i32` arithmetic of positions and of the part-one area is not modelled; the example answers 110 and 20 are not proved.
- Day23Rounds.PartOne: requires at least one elf; with none the fold keeps its `i32::MAX`/`i32::MIN` start values and the area arithmetic overflows, a case the model does not reproduce.
- Day23Rounds.PartTwo: the source loops until a quiet round with no bound; the model takes a `fuel` bound and returns `None` when it runs out.
- Day23.Parse: requires every character to be `.` or `#`; any other character is a panic in the source.
- Day23Step.CollectProposals and Day23Step.ApplyProposals: hash-map and hash-set iteration order is modelled by choosing any remaining element; the results do not depend on it.
- Day22Universe.PartOne: states a bound and the parse error path, not the exact count, because the position tables' entry order follows hash iteration; the loops themselves are tied to `CountFrom` exactly.
- Day22Universe.PartTwo: states only the parse error path, for the same reason; `NonCritical2` is tied to `TotalFrom` exactly.
- Day 22 panics (`expect`, `unwrap`, `assert!`, `usize` underflow, an index out of range) are `None` or `false`; the numbers are `usize` only in that they are at most 2^64 - 1 when read, and arithmetic on them is not wrapped.
- Day 22 hash-map iteration order is a choice the model leaves open, and so are the ties of `sorted_unstable_by_key`, which `Settle` takes as any order meeting `ZOrder`.
- Day 22 does not prove that a settled universe has every brick resting on the floor or another brick, nor the example answers 5 and 7 from the tests.
- Day 22: `non_critical_1` checks gravity before its window test and so also looks at the first brick past the window, while `non_critical_2` tests the window first; the model keeps both orders, so `SafeMovesNothing` holds only in one direction.
- Day17Search.PartOne: the answer is proved to be the heat loss of a walk allowed by part one's rule, not the least such heat loss.
- Day17Search.PartTwo: the answer is proved to be the heat loss of a walk allowed by part two's rule, not the least such heat loss.
- Day17Search.FindMinPath: proves that a found cost is the heat loss of an allowed walk, not that it is the least one; the search takes a bound on pops (`OutOfFuel`) because it does not terminate on its own terms, and `panic!("no path found")` is `NoPath`.
- Day 17: a non-digit character, an empty first line, digits that do not fill whole rows, and an empty map (which panics at `rows() - 1`) are all `None`; `usize` costs are not wrapped; the example answers 102 and 94 are not proved.
- Day24Search.PartOne: an arrival is proved to be the length of a real walk from the entrance to the exit, not the earliest one.
- Day24Search.PartTwo: the answer is proved to be the length of one walk entrance-exit-entrance-exit, not the earliest one.
- Day24Search.Find: proves that an arrival is the time of a real walk and no earlier than the distance allows, not that it is the earliest; the search takes a bound on pops (`OutOfFuel`), `panic!("No path found")` is `NoPath`, and ties between equal estimates are left to any choice.
- Day 24: the `as i32` casts of columns, rows and minutes are not wrapped; the example answers 18 and 54 are not proved.
- Common.Lines: splits at '\n' only and keeps a '\r' before it, where `str::lines` also strips a "\r\n" ending; the model reads inputs with plain line feeds.
- Common.Words: splits at ' ' only, where `split_ascii_whitespace` (day09.rs:3, day21.rs:22) also splits at tab, line feed, form feed and carriage return; words separated by those are not modelled.
- Day05.IsAlphabetic: ASCII letters only, where `char::is_alphabetic` also accepts every Unicode letter.
- Day05.IsNumeric: ASCII digits only, where `char::is_numeric` also accepts every Unicode numeric character.

## Findings

| source | as written | input that shows it | evidently intended | confidence | as-written member | corrected member |
|---|---|---|---|---|---|---|
| src/solutions/day02.rs:98 | the round score adds `opponent_move.winner(&player_move)`, the outcome seen from the opponent | the round "A Z" (rock against scissors) is a loss worth 3 points but scores 9 | the outcome seen from the player, `player_move.winner(&opponent_move)`; on the example both give 15 | not executed | Day02.AsWrittenCounterexample | Day02.PartOneRound |
| src/solutions/day04.rs:60 | `solve` compares the four range fields as text | the line "5-10,6-9": 6-9 lies inside 5-10, but "9" sorts after "10" as text, so it is not counted | the fields parsed to numbers and compared as numbers, as `part_one` and `part_two` do | not executed | Day04.SolveAsWrittenCounterexample | Day04.SolveIsBothParts |
| src/solutions/day19.rs:78-84 | a `<` test with `value >= upper`, or a `>` test with `value <= lower`, passes the whole box unsplit | `x < 1999` on a box whose `x` spans 1 to 1999 passes the whole box, yet the part with x = 1999 fails the test | the guards `value > upper` and `value < lower`, so that the boundary value is split off | not executed | Day19.AsWrittenCounterexample | Day19.EvalRangeSound |
