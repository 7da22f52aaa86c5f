/** Day 7: Camel Cards. Cards, their two orders (plain, and with the Jack
    as a joker that ranks lowest), the card-count histogram of a hand and
    the hand type it yields. */
module Day07 {
  import opened Common

  datatype Card = Two | Three | Four | Five | Six | Seven | Eight | Nine | Ten | Jack | Queen | King | Ace

  datatype Ordering = Less | Equal | Greater

  /** Position in the declaration order `Two < … < Ace`. */
  function Rank(c: Card): (r: nat)
    ensures r < 13
  {
    match c
    case Two => 0 case Three => 1 case Four => 2 case Five => 3 case Six => 4
    case Seven => 5 case Eight => 6 case Nine => 7 case Ten => 8 case Jack => 9
    case Queen => 10 case King => 11 case Ace => 12
  }

  lemma {:induction false} RankInjective(c: Card, d: Card)
    ensures Rank(c) == Rank(d) <==> c == d
  {
  }

  /** `Card::from_char`; `None` where the source panics. */
  function CardFromChar(ch: char): Option<Card>
  {
    match ch
    case '2' => Some(Two) case '3' => Some(Three) case '4' => Some(Four) case '5' => Some(Five)
    case '6' => Some(Six) case '7' => Some(Seven) case '8' => Some(Eight) case '9' => Some(Nine)
    case 'T' => Some(Ten) case 'J' => Some(Jack) case 'Q' => Some(Queen) case 'K' => Some(King)
    case 'A' => Some(Ace)
    case _ => None
  }

  function CardChar(c: Card): char
  {
    match c
    case Two => '2' case Three => '3' case Four => '4' case Five => '5' case Six => '6'
    case Seven => '7' case Eight => '8' case Nine => '9' case Ten => 'T' case Jack => 'J'
    case Queen => 'Q' case King => 'K' case Ace => 'A'
  }

  /** Every card is read back from its letter, and only the thirteen card
      letters are read at all. */
  lemma {:induction false} CardRoundTrip(c: Card, ch: char)
    ensures CardFromChar(CardChar(c)) == Some(c)
    ensures CardFromChar(ch).Some? ==> CardChar(CardFromChar(ch).value) == ch
  {
  }

  function CompareInt(a: int, b: int): Ordering
  {
    if a < b then Less else if a > b then Greater else Equal
  }

  function Flip(o: Ordering): Ordering
  {
    match o
    case Less => Greater
    case Equal => Equal
    case Greater => Less
  }

  /** Lexicographic comparison of two keys of the same length. */
  function Lex(a: seq<int>, b: seq<int>): Ordering
    requires |a| == |b|
    decreases |a|
  {
    if a == [] then Equal
    else if a[0] != b[0] then CompareInt(a[0], b[0])
    else Lex(a[1..], b[1..])
  }

  lemma {:induction false} LexFlip(a: seq<int>, b: seq<int>)
    requires |a| == |b|
    ensures Lex(b, a) == Flip(Lex(a, b))
    decreases |a|
  {
    if a != [] && a[0] == b[0] {
      LexFlip(a[1..], b[1..]);
    }
  }

  lemma {:induction false} LexEqual(a: seq<int>, b: seq<int>)
    requires |a| == |b|
    ensures Lex(a, b) == Equal <==> a == b
    decreases |a|
  {
    if a != [] {
      LexEqual(a[1..], b[1..]);
      if a[0] == b[0] && a[1..] == b[1..] {
        assert a == [a[0]] + a[1..] && b == [b[0]] + b[1..];
      }
    }
  }

  lemma {:induction false} LexTransitive(a: seq<int>, b: seq<int>, c: seq<int>)
    requires |a| == |b| == |c|
    requires Lex(a, b) != Greater && Lex(b, c) != Greater
    ensures Lex(a, c) != Greater
    decreases |a|
  {
    if a != [] && a[0] == b[0] && b[0] == c[0] {
      LexTransitive(a[1..], b[1..], c[1..]);
    }
  }

  /** The key of the derived order on `HandCards`: card by card. */
  function PlainKey(cards: seq<Card>): (k: seq<int>)
    ensures |k| == |cards| && forall i :: 0 <= i < |cards| ==> k[i] == Rank(cards[i])
  {
    seq(|cards|, i requires 0 <= i < |cards| => Rank(cards[i]))
  }

  /** The key of `joker_order`: card by card, the Jack below every card. */
  function JokerKey(cards: seq<Card>): (k: seq<int>)
    ensures |k| == |cards| && forall i :: 0 <= i < |cards| ==> k[i] == JokerRank(cards[i])
  {
    seq(|cards|, i requires 0 <= i < |cards| => JokerRank(cards[i]))
  }

  function JokerRank(c: Card): int
  {
    if c == Jack then -1 else Rank(c)
  }

  /** Both keys tell hands apart: equal keys only for equal cards. */
  lemma {:induction false} KeysInjective(a: seq<Card>, b: seq<Card>)
    requires |a| == |b|
    ensures PlainKey(a) == PlainKey(b) ==> a == b
    ensures JokerKey(a) == JokerKey(b) ==> a == b
  {
    if PlainKey(a) == PlainKey(b) {
      forall i | 0 <= i < |a|
        ensures a[i] == b[i]
      {
        assert PlainKey(a)[i] == PlainKey(b)[i];
      }
    }
    if JokerKey(a) == JokerKey(b) {
      forall i | 0 <= i < |a|
        ensures a[i] == b[i]
      {
        assert JokerKey(a)[i] == JokerKey(b)[i];
      }
    }
  }

  /** One pair of cards in `joker_order`. */
  function CardJokerOrder(c: Card, d: Card): (o: Ordering)
    ensures o == CompareInt(JokerRank(c), JokerRank(d))
  {
    match (c, d)
    case (Jack, Jack) => Equal
    case (Jack, _) => Less
    case (_, Jack) => Greater
    case _ => CompareInt(Rank(c), Rank(d))
  }

  /** `HandCards::joker_order`: the first pair of cards that differ decides,
      with the Jack the lowest card. */
  method JokerOrder(a: seq<Card>, b: seq<Card>) returns (o: Ordering)
    requires |a| == |b|
    ensures o == Lex(JokerKey(a), JokerKey(b))
  {
    var ka, kb := JokerKey(a), JokerKey(b);
    for i := 0 to |a|
      invariant ka[..i] == kb[..i]
      invariant Lex(ka, kb) == Lex(ka[i..], kb[i..])
    {
      var order := CardJokerOrder(a[i], b[i]);
      assert ka[i..][1..] == ka[i + 1..] && kb[i..][1..] == kb[i + 1..];
      if order != Equal {
        return order;
      }
      assert ka[..i + 1] == ka[..i] + [ka[i]] && kb[..i + 1] == kb[..i] + [kb[i]];
    }
    o := Equal;
  }

  datatype Interpretation = HighCard | OnePair | TwoPair | ThreeOfAKind | FullHouse | FourOfAKind | FiveOfAKind

  /** The discriminant `interpretation as usize`. */
  function Strength(t: Interpretation): nat
  {
    match t
    case HighCard => 0 case OnePair => 1 case TwoPair => 2 case ThreeOfAKind => 3
    case FullHouse => 4 case FourOfAKind => 5 case FiveOfAKind => 6
  }

  /** `HandInterpretation::from_cards` once the histogram is known: `c0`
      and `c1` are the two largest counts of non-joker cards, `jokers` the
      number of jokers. */
  function Classify(c0: nat, c1: nat, jokers: nat): Interpretation
  {
    if c0 + jokers >= 5 then FiveOfAKind
    else if c0 + jokers >= 4 then FourOfAKind
    else if (3 - Min(c0, 3)) + (2 - Min(c1, 2)) <= jokers then FullHouse
    else if c0 + jokers >= 3 then ThreeOfAKind
    else if (2 - Min(c0, 2)) + (2 - Min(c1, 2)) <= jokers then TwoPair
    else if c0 + jokers >= 2 then OnePair
    else HighCard
  }

  function Min(a: nat, b: nat): nat
  {
    if a < b then a else b
  }

  /** Without jokers a hand's type is its count pattern: five, four, three
      and two, three, two and two, two, or all different. */
  lemma {:induction false} PlainPattern(c0: nat, c1: nat)
    requires c1 <= c0 && 1 <= c0 && c0 + c1 <= 5
    ensures Classify(c0, c1, 0) ==
      if c0 == 5 then FiveOfAKind
      else if c0 == 4 then FourOfAKind
      else if c0 == 3 && c1 == 2 then FullHouse
      else if c0 == 3 then ThreeOfAKind
      else if c0 == 2 && c1 == 2 then TwoPair
      else if c0 == 2 then OnePair
      else HighCard
  {
  }

  /** Jokers act as more of the most frequent card: a hand with jokers has
      the type of the plain hand whose largest count absorbs them. */
  lemma {:induction false} JokersJoinLargest(c0: nat, c1: nat, jokers: nat)
    requires c1 <= c0
    ensures Classify(c0, c1, jokers) == Classify(c0 + jokers, c1, 0)
  {
  }

  /** Jokers never make a hand weaker. */
  lemma {:induction false} JokersNeverHurt(c0: nat, c1: nat, jokers: nat)
    requires c1 <= c0
    ensures Strength(Classify(c0, c1, jokers)) >= Strength(Classify(c0, c1, 0))
  {
    JokersJoinLargest(c0, c1, jokers);
  }

  /** Insertion of a card into cards sorted by rank. */
  function InsertCard(c: Card, s: seq<Card>): (r: seq<Card>)
    ensures |r| == |s| + 1
    decreases |s|
  {
    if s == [] || Rank(c) <= Rank(s[0]) then [c] + s
    else [s[0]] + InsertCard(c, s[1..])
  }

  lemma {:induction false} InsertCardPerm(c: Card, s: seq<Card>)
    ensures multiset(InsertCard(c, s)) == multiset(s) + multiset{c}
    decreases |s|
  {
    if s != [] && Rank(c) > Rank(s[0]) {
      InsertCardPerm(c, s[1..]);
      assert s == [s[0]] + s[1..];
    }
  }

  predicate CardsSorted(s: seq<Card>)
  {
    forall i, j :: 0 <= i < j < |s| ==> Rank(s[i]) <= Rank(s[j])
  }

  /** A card at or above a bound, inserted among cards at or above it,
      leaves them all at or above it. */
  lemma {:induction false} InsertCardAbove(c: Card, s: seq<Card>, lo: nat)
    requires lo <= Rank(c) && forall j :: 0 <= j < |s| ==> lo <= Rank(s[j])
    ensures forall j :: 0 <= j < |s| + 1 ==> lo <= Rank(InsertCard(c, s)[j])
    decreases |s|
  {
    if s != [] && Rank(c) > Rank(s[0]) {
      InsertCardAbove(c, s[1..], lo);
    }
  }

  lemma {:induction false} InsertCardSorted(c: Card, s: seq<Card>)
    requires CardsSorted(s)
    ensures CardsSorted(InsertCard(c, s))
    decreases |s|
  {
    if s != [] && Rank(c) > Rank(s[0]) {
      InsertCardSorted(c, s[1..]);
      InsertCardAbove(c, s[1..], Rank(s[0]));
    }
  }

  /** `cards.sort()`. */
  function SortCards(s: seq<Card>): (r: seq<Card>)
    ensures |r| == |s|
  {
    if s == [] then [] else InsertCard(s[0], SortCards(s[1..]))
  }

  /** The sorted cards are the same cards, in order of rank. */
  lemma {:induction false} SortCardsSorted(s: seq<Card>)
    ensures multiset(SortCards(s)) == multiset(s) && CardsSorted(SortCards(s))
  {
    if s != [] {
      SortCardsSorted(s[1..]);
      InsertCardSorted(s[0], SortCards(s[1..]));
      InsertCardPerm(s[0], SortCards(s[1..]));
      assert s == [s[0]] + s[1..];
    }
  }

  /** The number of jokers among the cards: the Jacks when playing with
      jokers, none otherwise. */
  function JokerCount(cards: seq<Card>, withJokers: bool): nat
  {
    if withJokers then Jacks(cards) else 0
  }

  function Jacks(cards: seq<Card>): nat
  {
    if cards == [] then 0 else (if cards[0] == Jack then 1 else 0) + Jacks(cards[1..])
  }

  lemma {:induction false} JacksMultiset(cards: seq<Card>)
    ensures Jacks(cards) == multiset(cards)[Jack]
  {
    if cards != [] {
      JacksMultiset(cards[1..]);
      assert cards == [cards[0]] + cards[1..];
    }
  }

  function SumF(s: seq<nat>): nat
  {
    if s == [] then 0 else s[0] + SumF(s[1..])
  }

  lemma {:induction false} SumBump(s: seq<nat>, i: nat)
    requires i < |s|
    ensures SumF(s[i := s[i] + 1]) == SumF(s) + 1
    decreases |s|
  {
    if i > 0 {
      SumBump(s[1..], i - 1);
      assert s[i := s[i] + 1][1..] == s[1..][i - 1 := s[i] + 1];
    }
  }

  /** The state of the scan of `get_histogram`: the counts of the runs so
      far, the index of the current run and the card of the current run. */
  datatype ScanState = ScanState(counts: seq<nat>, run: nat, last: Card)

  /** The scan can go on over `cs` from `st` without running out of slots:
      at most as many runs are left to start as there are slots after the
      current one. */
  predicate Fits(st: ScanState, cs: seq<Card>, withJokers: bool)
  {
    |st.counts| == 5
    && (st.run + |cs| < 5 || (st.run + |cs| == 5 && |cs| > 0 && (cs[0] == st.last || (withJokers && cs[0] == Jack))))
  }

  /** One card of the scan: a joker is passed over, a card other than the
      current run's starts the next run, any other card extends the run. */
  function ScanCard(st: ScanState, c: Card, withJokers: bool): (r: ScanState)
    requires Fits(st, [c], withJokers)
    ensures |r.counts| == 5
  {
    if withJokers && c == Jack then st
    else if c != st.last then ScanState(st.counts[st.run + 1 := st.counts[st.run + 1] + 1], st.run + 1, c)
    else ScanState(st.counts[st.run := st.counts[st.run] + 1], st.run, st.last)
  }

  /** The scan of the cards `cs` from the state `st`. */
  function ScanFrom(st: ScanState, cs: seq<Card>, withJokers: bool): (r: ScanState)
    requires Fits(st, cs, withJokers)
    ensures |r.counts| == 5
    decreases |cs|
  {
    if cs == [] then st
    else ScanFrom(ScanCard(st, cs[0], withJokers), cs[1..], withJokers)
  }

  /** The scan of the sorted cards, the first card starting the first run. */
  function Scan(cs: seq<Card>, withJokers: bool): (r: ScanState)
    requires 0 < |cs| <= 5
    ensures |r.counts| == 5
  {
    ScanFrom(ScanState([0, 0, 0, 0, 0], 0, cs[0]), cs, withJokers)
  }

  lemma {:induction false} JokerCountCons(c: Card, cs: seq<Card>, withJokers: bool)
    ensures JokerCount([c] + cs, withJokers) == JokerCount(cs, withJokers) + (if withJokers && c == Jack then 1 else 0)
  {
    assert ([c] + cs)[1..] == cs;
  }

  /** One card of the scan adds one to the counts unless it is a joker. */
  lemma {:induction false} ScanCardSum(st: ScanState, c: Card, withJokers: bool)
    requires Fits(st, [c], withJokers)
    ensures SumF(ScanCard(st, c, withJokers).counts) == SumF(st.counts) + (if withJokers && c == Jack then 0 else 1)
  {
    if !(withJokers && c == Jack) {
      var i := if c != st.last then st.run + 1 else st.run;
      assert ScanCard(st, c, withJokers).counts == st.counts[i := st.counts[i] + 1];
      SumBump(st.counts, i);
    }
  }

  /** The scan counts every card that is not a joker exactly once. */
  lemma {:induction false} ScanSum(st: ScanState, cs: seq<Card>, withJokers: bool)
    requires Fits(st, cs, withJokers)
    ensures SumF(ScanFrom(st, cs, withJokers).counts) + JokerCount(cs, withJokers) == SumF(st.counts) + |cs|
    decreases |cs|
  {
    if cs != [] {
      var next := ScanCard(st, cs[0], withJokers);
      ScanCardSum(st, cs[0], withJokers);
      ScanSum(next, cs[1..], withJokers);
      assert cs == [cs[0]] + cs[1..];
      JokerCountCons(cs[0], cs[1..], withJokers);
    }
  }

  /** Insertion into counts sorted largest first. */
  function InsertDown(x: nat, s: seq<nat>): (r: seq<nat>)
    ensures |r| == |s| + 1
    decreases |s|
  {
    if s == [] || x >= s[0] then [x] + s
    else [s[0]] + InsertDown(x, s[1..])
  }

  lemma {:induction false} InsertDownPerm(x: nat, s: seq<nat>)
    ensures multiset(InsertDown(x, s)) == multiset(s) + multiset{x}
    ensures SumF(InsertDown(x, s)) == SumF(s) + x
    decreases |s|
  {
    if s != [] && x < s[0] {
      InsertDownPerm(x, s[1..]);
      assert s == [s[0]] + s[1..];
      assert InsertDown(x, s)[1..] == InsertDown(x, s[1..]);
    }
  }

  predicate NonIncreasing(s: seq<nat>)
  {
    forall i, j :: 0 <= i < j < |s| ==> s[i] >= s[j]
  }

  /** A count at or below a bound, inserted among counts at or below it,
      leaves them all at or below it. */
  lemma {:induction false} InsertDownBelow(x: nat, s: seq<nat>, hi: nat)
    requires x <= hi && forall j :: 0 <= j < |s| ==> s[j] <= hi
    ensures forall j :: 0 <= j < |s| + 1 ==> InsertDown(x, s)[j] <= hi
    decreases |s|
  {
    if s != [] && x < s[0] {
      InsertDownBelow(x, s[1..], hi);
    }
  }

  lemma {:induction false} InsertDownSorted(x: nat, s: seq<nat>)
    requires NonIncreasing(s)
    ensures NonIncreasing(InsertDown(x, s))
    decreases |s|
  {
    if s != [] && x < s[0] {
      InsertDownSorted(x, s[1..]);
      InsertDownBelow(x, s[1..], s[0]);
    }
  }

  /** `histogram.sort(); histogram.reverse()`: the counts largest first. */
  function SortDown(s: seq<nat>): (r: seq<nat>)
    ensures |r| == |s|
  {
    if s == [] then [] else InsertDown(s[0], SortDown(s[1..]))
  }

  /** The sorted counts are the same counts, largest first. */
  lemma {:induction false} SortDownSorted(s: seq<nat>)
    ensures multiset(SortDown(s)) == multiset(s) && NonIncreasing(SortDown(s)) && SumF(SortDown(s)) == SumF(s)
  {
    if s != [] {
      SortDownSorted(s[1..]);
      InsertDownSorted(s[0], SortDown(s[1..]));
      InsertDownPerm(s[0], SortDown(s[1..]));
      assert s == [s[0]] + s[1..];
    }
  }

  /** The histogram `get_histogram` returns, and its joker count. */
  function Histogram(cards: seq<Card>, withJokers: bool): (seq<nat>, nat)
    requires |cards| == 5
  {
    var sorted := SortCards(cards);
    (SortDown(Scan(sorted, withJokers).counts), JokerCount(cards, withJokers))
  }

  /** The histogram has five counts, largest first, which with the jokers
      add up to the five cards; the jokers are the Jacks when playing with
      jokers, and none otherwise. */
  lemma {:induction false} HistogramFacts(cards: seq<Card>, withJokers: bool)
    requires |cards| == 5
    ensures var (counts, jokers) := Histogram(cards, withJokers);
      |counts| == 5 && NonIncreasing(counts) && SumF(counts) + jokers == 5
      && jokers == (if withJokers then multiset(cards)[Jack] else 0)
  {
    var sorted := SortCards(cards);
    SortCardsSorted(cards);
    SortDownSorted(Scan(sorted, withJokers).counts);
    ScanSum(ScanState([0, 0, 0, 0, 0], 0, sorted[0]), sorted, withJokers);
    JacksMultiset(sorted);
    JacksMultiset(cards);
  }

  /** The counting loop of `get_histogram` over the sorted cards. */
  method CountRuns(sorted: seq<Card>, withJokers: bool) returns (histogram: seq<nat>, jokers: nat)
    requires 0 < |sorted| <= 5
    ensures histogram == Scan(sorted, withJokers).counts
    ensures jokers == JokerCount(sorted, withJokers)
  {
    histogram := [0, 0, 0, 0, 0];
    jokers := 0;
    var last := sorted[0];
    var variant := 0;
    for i := 0 to |sorted|
      invariant Fits(ScanState(histogram, variant, last), sorted[i..], withJokers)
      invariant ScanFrom(ScanState(histogram, variant, last), sorted[i..], withJokers) == Scan(sorted, withJokers)
      invariant jokers + JokerCount(sorted[i..], withJokers) == JokerCount(sorted, withJokers)
    {
      var card := sorted[i];
      assert sorted[i..] == [card] + sorted[i + 1..];
      JokerCountCons(card, sorted[i + 1..], withJokers);
      ghost var st := ScanState(histogram, variant, last);
      assert ScanFrom(st, sorted[i..], withJokers) == ScanFrom(ScanCard(st, card, withJokers), sorted[i + 1..], withJokers);
      if withJokers && card == Jack {
        jokers := jokers + 1;
        continue;
      }
      if card != last {
        variant := variant + 1;
        last := card;
      }
      histogram := histogram[variant := histogram[variant] + 1];
      assert ScanState(histogram, variant, last) == ScanCard(st, card, withJokers);
    }
  }

  /** `get_histogram`: sort the cards, count each run of equal non-joker
      cards into the next slot, count the jokers apart, then sort the
      counts largest first. */
  method GetHistogram(cards: seq<Card>, withJokers: bool) returns (counts: seq<nat>, jokers: nat)
    requires |cards| == 5
    ensures (counts, jokers) == Histogram(cards, withJokers)
  {
    var sorted := SortCards(cards);
    var histogram;
    histogram, jokers := CountRuns(sorted, withJokers);
    SortCardsSorted(cards);
    JacksMultiset(sorted);
    JacksMultiset(cards);
    counts := SortDown(histogram);
  }

  /** The type of a hand. */
  function TypeOf(cards: seq<Card>, withJokers: bool): Interpretation
    requires |cards| == 5
  {
    var (counts, jokers) := Histogram(cards, withJokers);
    HistogramFacts(cards, withJokers);
    Classify(counts[0], counts[1], jokers)
  }

  /** `HandInterpretation::from_cards`. */
  method FromCards(cards: seq<Card>, withJokers: bool) returns (t: Interpretation)
    requires |cards| == 5
    ensures t == TypeOf(cards, withJokers)
  {
    var counts, jokers := GetHistogram(cards, withJokers);
    HistogramFacts(cards, withJokers);
    t := Classify(counts[0], counts[1], jokers);
  }

  /** A hand's jokers count as more of its most frequent card. */
  lemma {:induction false} TypeJokersJoin(cards: seq<Card>, withJokers: bool)
    requires |cards| == 5
    ensures var (counts, jokers) := Histogram(cards, withJokers);
      |counts| == 5 && TypeOf(cards, withJokers) == Classify(counts[0] + jokers, counts[1], 0)
  {
    HistogramFacts(cards, withJokers);
    var (counts, jokers) := Histogram(cards, withJokers);
    JokersJoinLargest(counts[0], counts[1], jokers);
  }
}
