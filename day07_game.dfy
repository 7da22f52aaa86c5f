/** Day 7: the hands of the game, their order, and the total winnings of a
    list of hands once ranked. */
module Day07Game {
  import opened Common
  import opened Day07

  /** `Hand`: five cards, their type, the bet, and whether Jacks are jokers. */
  datatype Hand = Hand(cards: seq<Card>, interpretation: Interpretation, bet: nat, withJokers: bool)

  /** A hand as `Hand::new` builds it for the given game. */
  predicate WellFormed(h: Hand, withJokers: bool)
  {
    |h.cards| == 5 && h.withJokers == withJokers && h.interpretation == TypeOf(h.cards, withJokers)
  }

  /** The hand `Hand::new` builds. */
  function HandOf(cards: seq<Card>, bet: nat, withJokers: bool): (h: Hand)
    requires |cards| == 5
    ensures WellFormed(h, withJokers) && h.cards == cards && h.bet == bet
  {
    Hand(cards, TypeOf(cards, withJokers), bet, withJokers)
  }

  /** `Hand::new`. */
  method NewHand(cards: seq<Card>, bet: nat, withJokers: bool) returns (h: Hand)
    requires |cards| == 5
    ensures h == HandOf(cards, bet, withJokers)
  {
    var interpretation := FromCards(cards, withJokers);
    h := Hand(cards, interpretation, bet, withJokers);
  }

  /** `Hand::cmp`: the stronger type wins; between hands of the same type the
      first differing card decides, in the plain order or, with jokers, in
      the order where the Jack is lowest. */
  function CompareHands(a: Hand, b: Hand): Ordering
    requires |a.cards| == |b.cards|
  {
    if a.interpretation != b.interpretation then CompareInt(Strength(a.interpretation), Strength(b.interpretation))
    else if a.withJokers then Lex(JokerKey(a.cards), JokerKey(b.cards))
    else Lex(PlainKey(a.cards), PlainKey(b.cards))
  }

  lemma {:induction false} StrengthInjective(s: Interpretation, t: Interpretation)
    ensures Strength(s) == Strength(t) <==> s == t
  {
  }

  /** Within one game, swapping the hands flips the comparison. */
  lemma {:induction false} CompareFlip(a: Hand, b: Hand)
    requires |a.cards| == |b.cards| && a.withJokers == b.withJokers
    ensures CompareHands(b, a) == Flip(CompareHands(a, b))
  {
    if a.interpretation == b.interpretation {
      LexFlip(JokerKey(a.cards), JokerKey(b.cards));
      LexFlip(PlainKey(a.cards), PlainKey(b.cards));
    } else {
      StrengthInjective(a.interpretation, b.interpretation);
    }
  }

  /** Two hands of one game compare equal exactly when they hold the same
      cards in the same order. */
  lemma {:induction false} CompareEqual(a: Hand, b: Hand, withJokers: bool)
    requires WellFormed(a, withJokers) && WellFormed(b, withJokers)
    ensures CompareHands(a, b) == Equal <==> a.cards == b.cards
  {
    StrengthInjective(a.interpretation, b.interpretation);
    LexEqual(JokerKey(a.cards), JokerKey(b.cards));
    LexEqual(PlainKey(a.cards), PlainKey(b.cards));
    KeysInjective(a.cards, b.cards);
  }

  /** Within one game the order is transitive. */
  lemma {:induction false} CompareTransitive(a: Hand, b: Hand, c: Hand)
    requires |a.cards| == |b.cards| == |c.cards| && a.withJokers == b.withJokers == c.withJokers
    requires CompareHands(a, b) != Greater && CompareHands(b, c) != Greater
    ensures CompareHands(a, c) != Greater
  {
    StrengthInjective(a.interpretation, b.interpretation);
    StrengthInjective(b.interpretation, c.interpretation);
    StrengthInjective(a.interpretation, c.interpretation);
    if a.interpretation == b.interpretation == c.interpretation {
      if a.withJokers {
        LexTransitive(JokerKey(a.cards), JokerKey(b.cards), JokerKey(c.cards));
      } else {
        LexTransitive(PlainKey(a.cards), PlainKey(b.cards), PlainKey(c.cards));
      }
    }
  }

  /** All hands belong to one game and have five cards. */
  predicate Uniform(hs: seq<Hand>, withJokers: bool)
  {
    forall i :: 0 <= i < |hs| ==> |hs[i].cards| == 5 && hs[i].withJokers == withJokers
  }

  predicate Ranked(hs: seq<Hand>)
    requires Uniform(hs, true) || Uniform(hs, false)
  {
    forall i, j :: 0 <= i < j < |hs| ==> CompareHands(hs[i], hs[j]) != Greater
  }

  /** Insertion in front of the first hand that is not weaker, so that a
      hand goes ahead of the hands equal to it. `SortHands` inserts the
      earlier hands into the sorted later ones, so equal hands keep their
      input order. */
  function InsertHand(h: Hand, s: seq<Hand>): (r: seq<Hand>)
    requires |h.cards| == 5 && Uniform(s, h.withJokers)
    ensures |r| == |s| + 1 && Uniform(r, h.withJokers)
    decreases |s|
  {
    if s == [] || CompareHands(s[0], h) != Less then [h] + s
    else [s[0]] + InsertHand(h, s[1..])
  }

  lemma {:induction false} InsertHandPerm(h: Hand, s: seq<Hand>)
    requires |h.cards| == 5 && Uniform(s, h.withJokers)
    ensures multiset(InsertHand(h, s)) == multiset(s) + multiset{h}
    decreases |s|
  {
    if s != [] && CompareHands(s[0], h) == Less {
      InsertHandPerm(h, s[1..]);
      assert s == [s[0]] + s[1..];
    }
  }

  /** A hand not below `lo`, inserted among hands not below `lo`, leaves
      them all not below `lo`. */
  lemma {:induction false} InsertHandAbove(h: Hand, s: seq<Hand>, lo: Hand)
    requires |h.cards| == 5 && Uniform(s, h.withJokers) && |lo.cards| == 5
    requires CompareHands(lo, h) != Greater && forall j :: 0 <= j < |s| ==> CompareHands(lo, s[j]) != Greater
    ensures forall j :: 0 <= j < |s| + 1 ==> CompareHands(lo, InsertHand(h, s)[j]) != Greater
    decreases |s|
  {
    if s != [] && CompareHands(s[0], h) == Less {
      InsertHandAbove(h, s[1..], lo);
    }
  }

  lemma {:induction false} InsertHandRanked(h: Hand, s: seq<Hand>)
    requires |h.cards| == 5 && Uniform(s, h.withJokers) && Ranked(s)
    ensures Ranked(InsertHand(h, s))
    decreases |s|
  {
    if s == [] {
    } else if CompareHands(s[0], h) != Less {
      var r := InsertHand(h, s);
      CompareFlip(s[0], h);
      forall j | 0 < j < |r|
        ensures CompareHands(h, r[j]) != Greater
      {
        if j > 1 {
          CompareTransitive(h, s[0], s[j - 1]);
        }
      }
    } else {
      InsertHandRanked(h, s[1..]);
      InsertHandAbove(h, s[1..], s[0]);
    }
  }

  /** `input.sort()`: a stable sort of the hands, weakest first. */
  function SortHands(hs: seq<Hand>, withJokers: bool): (r: seq<Hand>)
    requires Uniform(hs, withJokers)
    ensures |r| == |hs| && Uniform(r, withJokers)
  {
    if hs == [] then [] else InsertHand(hs[0], SortHands(hs[1..], withJokers))
  }

  /** The sort ranks the same hands, weakest first. */
  lemma {:induction false} SortHandsRanked(hs: seq<Hand>, withJokers: bool)
    requires Uniform(hs, withJokers)
    ensures multiset(SortHands(hs, withJokers)) == multiset(hs) && Ranked(SortHands(hs, withJokers))
  {
    if hs != [] {
      SortHandsRanked(hs[1..], withJokers);
      InsertHandRanked(hs[0], SortHands(hs[1..], withJokers));
      InsertHandPerm(hs[0], SortHands(hs[1..], withJokers));
      assert hs == [hs[0]] + hs[1..];
    }
  }

  /** Every hand is one `Hand::new` builds for the game. */
  predicate AllWellFormed(hs: seq<Hand>, withJokers: bool)
  {
    forall i :: 0 <= i < |hs| ==> WellFormed(hs[i], withJokers)
  }

  /** The hands holding the cards `c`, in their order in `hs`. */
  function SameCards(hs: seq<Hand>, c: seq<Card>): seq<Hand>
  {
    if hs == [] then []
    else (if hs[0].cards == c then [hs[0]] else []) + SameCards(hs[1..], c)
  }

  /** The hand `h` alone, when it holds the cards `c`. */
  function Own(h: Hand, c: seq<Card>): seq<Hand>
  {
    if h.cards == c then [h] else []
  }

  lemma {:induction false} SameCardsCons(h: Hand, t: seq<Hand>, c: seq<Card>)
    ensures SameCards([h] + t, c) == Own(h, c) + SameCards(t, c)
  {
    assert ([h] + t)[1..] == t;
  }

  /** A weaker hand of the game holds other cards. */
  lemma {:induction false} LessDiffers(a: Hand, b: Hand)
    requires WellFormed(a, b.withJokers) && WellFormed(b, b.withJokers)
    requires CompareHands(a, b) == Less
    ensures a.cards != b.cards
  {
    if a.cards == b.cards {
      LexEqual(JokerKey(a.cards), JokerKey(b.cards));
      LexEqual(PlainKey(a.cards), PlainKey(b.cards));
    }
  }

  lemma {:induction false} OwnSwap(a: Hand, b: Hand, c: seq<Card>, rest: seq<Hand>)
    requires a.cards != b.cards
    ensures Own(a, c) + (Own(b, c) + rest) == Own(b, c) + (Own(a, c) + rest)
  {
  }

  /** Inserting a hand puts it after no hand with the same cards: among
      the hands holding any cards `c`, the inserted one comes first. */
  lemma {:induction false} InsertHandStable(h: Hand, s: seq<Hand>, c: seq<Card>)
    requires WellFormed(h, h.withJokers) && AllWellFormed(s, h.withJokers)
    ensures SameCards(InsertHand(h, s), c) == SameCards([h] + s, c)
    decreases |s|
  {
    if s != [] && CompareHands(s[0], h) == Less {
      var t := s[1..];
      assert s == [s[0]] + t;
      LessDiffers(s[0], h);
      InsertHandStable(h, t, c);
      calc {
        SameCards(InsertHand(h, s), c);
        SameCards([s[0]] + InsertHand(h, t), c);
        { SameCardsCons(s[0], InsertHand(h, t), c); }
        Own(s[0], c) + SameCards([h] + t, c);
        { SameCardsCons(h, t, c); }
        Own(s[0], c) + (Own(h, c) + SameCards(t, c));
        { OwnSwap(s[0], h, c, SameCards(t, c)); }
        Own(h, c) + (Own(s[0], c) + SameCards(t, c));
        { SameCardsCons(s[0], t, c); }
        Own(h, c) + SameCards(s, c);
        { SameCardsCons(h, s, c); }
        SameCards([h] + s, c);
      }
    }
  }

  /** The sort is stable: the hands holding the same cards, which compare
      equal and differ at most in their bets, keep their input order. */
  lemma {:induction false} SortHandsStable(hs: seq<Hand>, withJokers: bool, c: seq<Card>)
    requires Uniform(hs, withJokers) && AllWellFormed(hs, withJokers)
    ensures SameCards(SortHands(hs, withJokers), c) == SameCards(hs, c)
  {
    if hs != [] {
      var rest := SortHands(hs[1..], withJokers);
      SortHandsStable(hs[1..], withJokers, c);
      SortHandsRanked(hs[1..], withJokers);
      forall i | 0 <= i < |rest|
        ensures WellFormed(rest[i], withJokers)
      {
        assert rest[i] in multiset(hs[1..]);
      }
      InsertHandStable(hs[0], rest, c);
      assert ([hs[0]] + rest)[1..] == rest;
    }
  }

  /** Two hands with the same cards are ranked in input order, so the
      later one wins twice its bet: "32T3K 1" then "32T3K 2" win 1 + 4. */
  lemma {:induction false} EqualHandsInOrder(a: Hand, b: Hand, withJokers: bool)
    requires WellFormed(a, withJokers) && WellFormed(b, withJokers) && a.cards == b.cards
    ensures SortHands([a, b], withJokers) == [a, b]
    ensures Winnings(SortHands([a, b], withJokers)) == a.bet + 2 * b.bet
  {
    CompareEqual(a, b, withJokers);
    assert [a, b][1..] == [b];
    assert SortHands([b], withJokers) == [b];
    assert [a, b][..1] == [a];
    assert [a][..0] == [];
    assert Winnings([a]) == a.bet;
  }

  /** Each hand wins its bet times its rank, the weakest hand ranking 1. */
  function Winnings(ranked: seq<Hand>): nat
  {
    if ranked == [] then 0
    else Winnings(ranked[..|ranked| - 1]) + |ranked| * ranked[|ranked| - 1].bet
  }

  /** Read five cards; `None` where `Card::from_char` panics. */
  function CardsOf(text: string): (r: Option<seq<Card>>)
    ensures r.Some? ==> |r.value| == |text|
    ensures r.Some? <==> forall i :: 0 <= i < |text| ==> CardFromChar(text[i]).Some?
  {
    if text == [] then Some([])
    else
      var first := CardFromChar(text[0]);
      var rest := CardsOf(text[1..]);
      if first.None? then None
      else if rest.None? then
        var i :| 0 <= i < |text[1..]| && CardFromChar(text[1..][i]).None?;
        assert CardFromChar(text[i + 1]).None?;
        None
      else Some([first.value] + rest.value)
  }

  /** One line of the input, `cards bet`; `None` where `parse_input` panics:
      no space, not five cards, a letter that is no card, or a bet that is
      not a `usize`. */
  function LineOf(line: string): (r: Option<(seq<Card>, nat)>)
    ensures r.Some? ==> |r.value.0| == 5 && r.value.1 <= U64_MAX
  {
    match SplitOnce(line, " ")
    case None => None
    case Some((cardsText, betText)) =>
      if |cardsText| != 5 then None
      else
        match (CardsOf(cardsText), ParseNat(betText, U64_MAX))
        case (Some(cards), Some(bet)) => Some((cards, bet))
        case _ => None
  }

  function CardsText(cards: seq<Card>): (t: string)
    ensures |t| == |cards| && ' ' !in t
  {
    seq(|cards|, i requires 0 <= i < |cards| => CardChar(cards[i]))
  }

  lemma {:induction false} CardsTextRoundTrip(cards: seq<Card>)
    ensures CardsOf(CardsText(cards)) == Some(cards)
    decreases |cards|
  {
    if cards != [] {
      CardsTextRoundTrip(cards[1..]);
      assert CardsText(cards)[1..] == CardsText(cards[1..]);
      CardRoundTrip(cards[0], ' ');
      assert cards == [cards[0]] + cards[1..];
    }
  }

  /** Every hand of five cards with a bet that fits a `usize` is read back
      from its line. */
  lemma {:induction false} LineRoundTrip(cards: seq<Card>, bet: nat)
    requires |cards| == 5 && bet <= U64_MAX
    ensures LineOf(CardsText(cards) + " " + Decimal(bet)) == Some((cards, bet))
  {
    FreeChar(CardsText(cards), ' ');
    SplitOnceAt(CardsText(cards), " ", Decimal(bet));
    CardsTextRoundTrip(cards);
    ParseNatDecimal(bet, U64_MAX);
  }

  /** The hand `Hand::new` builds from one line. */
  function HandOfLine(line: string, withJokers: bool): (h: Hand)
    requires LineOf(line).Some?
    ensures |h.cards| == 5 && h.withJokers == withJokers
  {
    HandOf(LineOf(line).value.0, LineOf(line).value.1, withJokers)
  }

  /** The hands of a game, one per line. */
  function HandsOf(lines: seq<string>, withJokers: bool): (hs: seq<Hand>)
    requires forall i :: 0 <= i < |lines| ==> LineOf(lines[i]).Some?
    ensures |hs| == |lines| && Uniform(hs, withJokers) && AllWellFormed(hs, withJokers)
  {
    if lines == [] then []
    else HandsOf(lines[..|lines| - 1], withJokers) + [HandOfLine(lines[|lines| - 1], withJokers)]
  }

  /** The hands of `parse_input` built by `Hand::new`, one per line. */
  method BuildHands(lines: seq<string>, withJokers: bool) returns (hands: seq<Hand>)
    requires forall i :: 0 <= i < |lines| ==> LineOf(lines[i]).Some?
    ensures hands == HandsOf(lines, withJokers)
  {
    hands := [];
    for i := 0 to |lines|
      invariant hands == HandsOf(lines[..i], withJokers)
    {
      var parsed := LineOf(lines[i]);
      var hand := NewHand(parsed.value.0, parsed.value.1, withJokers);
      assert lines[..i + 1][..i] == lines[..i];
      hands := hands + [hand];
    }
    assert lines[..|lines|] == lines;
  }

  /** The sum of bet times rank over the ranked hands. */
  method TotalWinnings(ranked: seq<Hand>) returns (sum: nat)
    ensures sum == Winnings(ranked)
  {
    sum := 0;
    for i := 0 to |ranked|
      invariant sum == Winnings(ranked[..i])
    {
      assert ranked[..i + 1][..i] == ranked[..i];
      sum := sum + (i + 1) * ranked[i].bet;
    }
    assert ranked[..|ranked|] == ranked;
  }

  /** `solve`: build the hands, rank them, and sum bet times rank; the
      `usize` total is cut to its low 32 bits by `as u32`. */
  method Solve(lines: seq<string>, withJokers: bool) returns (total: nat)
    requires forall i :: 0 <= i < |lines| ==> LineOf(lines[i]).Some?
    ensures total == Winnings(SortHands(HandsOf(lines, withJokers), withJokers)) % 0x1_0000_0000
    ensures total <= U32_MAX
  {
    var hands := BuildHands(lines, withJokers);
    var ranked := SortHands(hands, withJokers);
    var sum := TotalWinnings(ranked);
    total := sum % 0x1_0000_0000;
  }
}
