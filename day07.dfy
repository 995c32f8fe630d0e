/** Day 7: Camel Cards. Hands of five cards are classified by how many cards
    share a value, ordered by classification and then card by card, and each
    hand's bid is multiplied by its rank. With the joker rule `J` is the
    weakest card and counts as whatever makes the hand strongest. */
module Day7Cards {
  import opened Wrappers
  import opened Strings
  import opened Collections

  datatype Classification =
    HighCard | OnePair | TwoPair | ThreeOfAKind | FullHouse | FourOfAKind | FiveOfAKind

  /** The derived `Ord` of the classification: declaration order. */
  function Strength(c: Classification): nat {
    match c
    case HighCard => 0
    case OnePair => 1
    case TwoPair => 2
    case ThreeOfAKind => 3
    case FullHouse => 4
    case FourOfAKind => 5
    case FiveOfAKind => 6
  }

  /** `std::cmp::Ordering`. */
  datatype Ordering = Less | Equal | Greater {
    function Reverse(): Ordering {
      match this
      case Less => Greater
      case Equal => Equal
      case Greater => Less
    }
  }

  function CompareNat(a: nat, b: nat): Ordering {
    if a < b then Less else if a == b then Equal else Greater
  }

  // ----------------------------------------------------------------- cards

  /** The card value of a character; `None` where `Hand::parse` panics. With
      the joker rule `J` is 0, below every other card. */
  function CardValue(c: char, joker: bool): (r: Option<nat>)
    ensures r.Some? <==> c in "123456789TJQKA"
    ensures r.Some? ==> r.value <= 14 && (r.value == 0 <==> joker && c == 'J')
  {
    if '1' <= c <= '9' then Some(c as int - '1' as int + 1)
    else if c == 'T' then Some(10)
    else if c == 'J' then Some(if joker then 0 else 11)
    else if c == 'Q' then Some(12)
    else if c == 'K' then Some(13)
    else if c == 'A' then Some(14)
    else None
  }

  /** The `Debug` text of a card value. */
  function CardText(v: nat): string {
    if 1 <= v <= 9 then [DigitChar(v)]
    else if v == 10 then "T"
    else if v == 0 || v == 11 then "J"
    else if v == 12 then "Q"
    else if v == 13 then "K"
    else if v == 14 then "A"
    else ""
  }

  /** The text of a parsed card is the character it came from. */
  lemma CardTextOfValue(c: char, joker: bool)
    requires CardValue(c, joker).Some?
    ensures CardText(CardValue(c, joker).value) == [c]
  {
  }

  datatype Hand = Hand(cards: seq<nat>)

  /** The values of all characters, or `None` if one is not a card. */
  function ParseCards(s: string, joker: bool): Option<seq<nat>> {
    if s == [] then Some([])
    else
      match (CardValue(s[0], joker), ParseCards(s[1..], joker))
      case (Some(v), Some(rest)) => Some([v] + rest)
      case _ => None
  }

  /** The cards parse exactly when every character is a card, and then each
      value is that of its character. */
  lemma {:induction false} ParseCardsEach(s: string, joker: bool)
    ensures ParseCards(s, joker).Some? <==> forall i :: 0 <= i < |s| ==> CardValue(s[i], joker).Some?
    ensures ParseCards(s, joker).Some? ==> (|ParseCards(s, joker).value| == |s| &&
      forall i :: 0 <= i < |s| ==> Some(ParseCards(s, joker).value[i]) == CardValue(s[i], joker))
  {
    if s != [] {
      ParseCardsEach(s[1..], joker);
      var r := ParseCards(s, joker);
      if r.Some? {
        var rest := ParseCards(s[1..], joker).value;
        assert r.value == [CardValue(s[0], joker).value] + rest;
        assert forall i :: 1 <= i < |s| ==> r.value[i] == rest[i - 1];
      } else if CardValue(s[0], joker).Some? {
        var i :| 0 <= i < |s[1..]| && CardValue(s[1..][i], joker).None?;
        assert CardValue(s[i + 1], joker).None?;
      }
    }
  }

  /** `Hand::parse`: five cards; `None` where it panics (a character that is
      not a card, or not exactly five of them). */
  function ParseHand(s: string, joker: bool): (r: Option<Hand>)
    ensures r.Some? ==> |r.value.cards| == 5
  {
    match ParseCards(s, joker)
    case Some(cards) => if |cards| == 5 then Some(Hand(cards)) else None
    case None => None
  }

  /** The `Debug` text of the cards, joined. */
  function CardsText(cards: seq<nat>): string {
    if cards == [] then "" else CardText(cards[0]) + CardsText(cards[1..])
  }

  /** Writing a parsed hand's cards gives back the text it was parsed from. */
  lemma {:induction false} CardsTextOfParse(s: string, joker: bool)
    requires ParseCards(s, joker).Some?
    ensures CardsText(ParseCards(s, joker).value) == s
  {
    if s != [] {
      CardTextOfValue(s[0], joker);
      CardsTextOfParse(s[1..], joker);
      assert s == [s[0]] + s[1..];
    }
  }

  // ------------------------------------------------------- classification

  /** How many cards of the hand have value `v` (`counts()`). */
  function Count(cards: seq<nat>, v: nat): nat {
    multiset(cards)[v]
  }

  /** The distinct values (the keys of `counts()`). */
  function Values(cards: seq<nat>): set<nat> {
    set c | c in cards
  }

  /** The number of distinct values, counted along the sequence. */
  function DistinctCount(cards: seq<nat>): nat {
    if cards == [] then 0
    else DistinctCount(cards[..|cards| - 1]) + if cards[|cards| - 1] in cards[..|cards| - 1] then 0 else 1
  }

  lemma {:induction false} ValuesCard(cards: seq<nat>)
    ensures |Values(cards)| == DistinctCount(cards)
    ensures |Values(cards)| <= |cards|
    ensures cards != [] ==> |Values(cards)| >= 1
  {
    if cards != [] {
      var init := cards[..|cards| - 1];
      var last := cards[|cards| - 1];
      ValuesCard(init);
      assert Values(cards) == Values(init) + {last};
      if last in init {
        assert Values(cards) == Values(init);
      } else {
        assert last !in Values(init);
      }
    }
  }

  /** Whether some value of `cards` occurs `k` times among `all`
      (`counts.values().any(|count| *count == k)`). */
  function AnyCount(cards: seq<nat>, all: seq<nat>, k: nat): (b: bool)
    ensures b <==> exists i :: 0 <= i < |cards| && Count(all, cards[i]) == k
  {
    if cards == [] then false
    else if Count(all, cards[0]) == k then true
    else
      assert forall i :: 1 <= i < |cards| ==> cards[i] == cards[1..][i - 1];
      AnyCount(cards[1..], all, k)
  }

  /** The classification without the joker rule: by the number of distinct
      values, and for three or two of them by whether some value occurs
      three or four times. */
  function BaseClass(cards: seq<nat>): Classification
    requires |cards| == 5
  {
    var n := DistinctCount(cards);
    if n == 5 then HighCard
    else if n == 4 then OnePair
    else if n == 3 then (if AnyCount(cards, cards, 3) then ThreeOfAKind else TwoPair)
    else if n == 2 then (if AnyCount(cards, cards, 4) then FourOfAKind else FullHouse)
    else FiveOfAKind
  }

  /** The number of distinct values is between one and five, so the `panic!`
      of `classify` cannot happen. */
  lemma DistinctCountRange(cards: seq<nat>)
    requires |cards| == 5
    ensures 1 <= DistinctCount(cards) <= 5 && DistinctCount(cards) == |Values(cards)|
  {
    ValuesCard(cards);
  }

  /** The joker upgrade table of `classify`: never lower than the base, and
      higher unless the hand is already five of a kind. */
  function Upgrade(base: Classification, jokers: nat): (r: Classification)
    ensures Strength(r) >= Strength(base)
    ensures base != FiveOfAKind ==> Strength(r) > Strength(base)
  {
    match base
    case FiveOfAKind => FiveOfAKind
    case FourOfAKind => FiveOfAKind
    case FullHouse => FiveOfAKind
    case ThreeOfAKind => FourOfAKind
    case TwoPair => if jokers == 1 then FullHouse else FourOfAKind
    case OnePair => ThreeOfAKind
    case HighCard => OnePair
  }

  /** `Hand::classify`. */
  function Classify(hand: Hand, joker: bool): (r: Classification)
    requires |hand.cards| == 5
    ensures Strength(r) >= Strength(BaseClass(hand.cards))
    ensures !joker || Count(hand.cards, 0) == 0 ==> r == BaseClass(hand.cards)
    ensures joker && Count(hand.cards, 0) > 0 && BaseClass(hand.cards) != FiveOfAKind ==>
      Strength(r) > Strength(BaseClass(hand.cards))
  {
    var base := BaseClass(hand.cards);
    var jokers := Count(hand.cards, 0);
    if joker && jokers > 0 then Upgrade(base, jokers) else base
  }

  // What the classification means, and that it depends on the cards only
  // and not on their order.

  /** Every card differs from the ones before it exactly when all values
      are distinct. */
  lemma {:induction false} DistinctCountFull(cards: seq<nat>)
    ensures DistinctCount(cards) <= |cards|
    ensures DistinctCount(cards) == |cards| <==> Distinct(cards)
  {
    if cards != [] {
      var init := cards[..|cards| - 1];
      var last := cards[|cards| - 1];
      DistinctCountFull(init);
      if Distinct(cards) {
        assert Distinct(init) by {
          forall i, j | 0 <= i < j < |init| ensures init[i] != init[j] {
            assert init[i] == cards[i] && init[j] == cards[j];
          }
        }
        assert last !in init by {
          forall i | 0 <= i < |init| ensures init[i] != last {
            assert init[i] == cards[i];
          }
        }
      }
      if DistinctCount(cards) == |cards| {
        assert Distinct(init) && last !in init;
        forall i, j | 0 <= i < j < |cards| ensures cards[i] != cards[j] {
          if j < |init| {
            assert cards[i] == init[i] && cards[j] == init[j];
          } else {
            assert cards[i] == init[i];
          }
        }
      }
    }
  }

  /** High card: no two cards share a value. */
  lemma HighCardIffDistinct(cards: seq<nat>)
    requires |cards| == 5
    ensures BaseClass(cards) == HighCard <==> Distinct(cards)
  {
    ValuesCard(cards);
    DistinctCountFull(cards);
  }

  /** Five of a kind: all cards share one value. */
  lemma FiveOfAKindIffSame(cards: seq<nat>)
    requires |cards| == 5
    ensures BaseClass(cards) == FiveOfAKind <==> forall i :: 0 <= i < 5 ==> cards[i] == cards[0]
  {
    ValuesCard(cards);
    if forall i :: 0 <= i < 5 ==> cards[i] == cards[0] {
      assert Values(cards) == {cards[0]};
    } else {
      var i :| 0 <= i < 5 && cards[i] != cards[0];
      assert {cards[0], cards[i]} <= Values(cards);
      assert |{cards[0], cards[i]}| == 2;
      SubsetCard({cards[0], cards[i]}, Values(cards));
    }
  }

  lemma SubsetCard(a: set<nat>, b: set<nat>)
    requires a <= b
    ensures |a| <= |b|
  {
    assert b == a + (b - a);
  }

  /** The base classification depends only on which cards the hand holds,
      not on their order. */
  lemma BaseClassOfPermutation(a: seq<nat>, b: seq<nat>)
    requires |a| == 5 && multiset(a) == multiset(b)
    ensures |b| == 5 && BaseClass(a) == BaseClass(b)
  {
    assert |a| == |multiset(a)| == |multiset(b)| == |b|;
    assert Values(a) == Values(b) by {
      forall v ensures v in Values(a) <==> v in Values(b) {
        assert v in a <==> v in multiset(a);
        assert v in b <==> v in multiset(b);
      }
    }
    ValuesCard(a);
    ValuesCard(b);
    AnyCountOfPermutation(a, b, 3);
    AnyCountOfPermutation(b, a, 3);
    AnyCountOfPermutation(a, b, 4);
    AnyCountOfPermutation(b, a, 4);
  }

  lemma AnyCountOfPermutation(a: seq<nat>, b: seq<nat>, k: nat)
    requires multiset(a) == multiset(b)
    ensures AnyCount(a, a, k) ==> AnyCount(b, b, k)
  {
    if AnyCount(a, a, k) {
      var i :| 0 <= i < |a| && Count(a, a[i]) == k;
      assert a[i] in multiset(b);
      var j :| 0 <= j < |b| && b[j] == a[i];
      assert Count(b, b[j]) == k;
    }
  }

  /** So does the classification with or without jokers. */
  lemma ClassifyOfPermutation(a: seq<nat>, b: seq<nat>, joker: bool)
    requires |a| == 5 && multiset(a) == multiset(b)
    ensures |b| == 5 && Classify(Hand(a), joker) == Classify(Hand(b), joker)
  {
    BaseClassOfPermutation(a, b);
  }

  // ------------------------------------------------------------- ordering

  /** The derived `Ord` of `[u8; 5]`: lexicographic. */
  function LexCompare(a: seq<nat>, b: seq<nat>): Ordering
    requires |a| == |b|
  {
    if a == [] then Equal
    else if a[0] < b[0] then Less
    else if a[0] > b[0] then Greater
    else LexCompare(a[1..], b[1..])
  }

  lemma {:induction false} LexEqual(a: seq<nat>, b: seq<nat>)
    requires |a| == |b|
    ensures LexCompare(a, b) == Equal <==> a == b
  {
    if a != [] {
      LexEqual(a[1..], b[1..]);
      assert a == [a[0]] + a[1..] && b == [b[0]] + b[1..];
    }
  }

  lemma {:induction false} LexReverse(a: seq<nat>, b: seq<nat>)
    requires |a| == |b|
    ensures LexCompare(b, a) == LexCompare(a, b).Reverse()
  {
    if a != [] {
      LexReverse(a[1..], b[1..]);
    }
  }

  lemma {:induction false} LexTransitive(a: seq<nat>, b: seq<nat>, c: seq<nat>)
    requires |a| == |b| == |c|
    requires LexCompare(a, b) == Less && LexCompare(b, c) == Less
    ensures LexCompare(a, c) == Less
  {
    if a[0] == b[0] == c[0] {
      LexTransitive(a[1..], b[1..], c[1..]);
    }
  }

  /** A hand as `Hand::parse` builds it: five cards. */
  predicate ValidHand(h: Hand) {
    |h.cards| == 5
  }

  /** `Ord for Hand`: equal cards are equal; otherwise the classification
      decides, and equal classifications fall back to the cards. */
  function Compare(x: Hand, y: Hand, joker: bool): Ordering
    requires ValidHand(x) && ValidHand(y)
  {
    var cards := LexCompare(x.cards, y.cards);
    if cards == Equal then Equal
    else
      var classes := CompareNat(Strength(Classify(x, joker)), Strength(Classify(y, joker)));
      if classes == Equal then cards else classes
  }

  /** Equal exactly when the cards are equal. */
  lemma CompareEqual(x: Hand, y: Hand, joker: bool)
    requires ValidHand(x) && ValidHand(y)
    ensures Compare(x, y, joker) == Equal <==> x == y
  {
    LexEqual(x.cards, y.cards);
  }

  /** The order is that of the key (classification, cards): the higher
      classification wins, and equal classifications compare card by card. */
  lemma CompareByKey(x: Hand, y: Hand, joker: bool)
    requires ValidHand(x) && ValidHand(y)
    ensures Strength(Classify(x, joker)) < Strength(Classify(y, joker)) ==> Compare(x, y, joker) == Less
    ensures Strength(Classify(x, joker)) > Strength(Classify(y, joker)) ==> Compare(x, y, joker) == Greater
    ensures Classify(x, joker) == Classify(y, joker) ==> Compare(x, y, joker) == LexCompare(x.cards, y.cards)
  {
    LexEqual(x.cards, y.cards);
  }

  /** Antisymmetry: swapping the hands reverses the result. */
  lemma CompareReverse(x: Hand, y: Hand, joker: bool)
    requires ValidHand(x) && ValidHand(y)
    ensures Compare(y, x, joker) == Compare(x, y, joker).Reverse()
  {
    LexEqual(x.cards, y.cards);
    LexEqual(y.cards, x.cards);
    LexReverse(x.cards, y.cards);
  }

  lemma CompareTransitive(x: Hand, y: Hand, z: Hand, joker: bool)
    requires ValidHand(x) && ValidHand(y) && ValidHand(z)
    requires Compare(x, y, joker) == Less && Compare(y, z, joker) == Less
    ensures Compare(x, z, joker) == Less
  {
    LexEqual(x.cards, y.cards);
    LexEqual(y.cards, z.cards);
    LexEqual(x.cards, z.cards);
    if Classify(x, joker) == Classify(y, joker) == Classify(z, joker) {
      LexTransitive(x.cards, y.cards, z.cards);
    }
  }

  /** `x` may be ranked before `y`. */
  predicate AtMost(x: Hand, y: Hand, joker: bool)
    requires ValidHand(x) && ValidHand(y)
  {
    Compare(x, y, joker) != Greater
  }

  lemma AtMostTransitive(x: Hand, y: Hand, z: Hand, joker: bool)
    requires ValidHand(x) && ValidHand(y) && ValidHand(z)
    requires AtMost(x, y, joker) && AtMost(y, z, joker)
    ensures AtMost(x, z, joker)
  {
    CompareEqual(x, y, joker);
    CompareEqual(y, z, joker);
    if Compare(x, y, joker) == Less && Compare(y, z, joker) == Less {
      CompareTransitive(x, y, z, joker);
    }
  }

  // -------------------------------------------------------------- ranking

  type Entry = (Hand, nat)

  ghost predicate ValidEntries(s: seq<Entry>) {
    forall i :: 0 <= i < |s| ==> ValidHand(s[i].0)
  }

  ghost predicate SortedBy(s: seq<Entry>, joker: bool)
    requires ValidEntries(s)
  {
    forall i, j :: 0 <= i < j < |s| ==> AtMost(s[i].0, s[j].0, joker)
  }

  /** The entries holding hand `h`, in order: what a stable sort keeps. */
  function WithHand(s: seq<Entry>, h: Hand): seq<Entry> {
    if s == [] then [] else (if s[0].0 == h then [s[0]] else []) + WithHand(s[1..], h)
  }

  lemma WithHandCons(e: Entry, s: seq<Entry>, h: Hand)
    ensures WithHand([e] + s, h) == (if e.0 == h then [e] else []) + WithHand(s, h)
  {
    assert ([e] + s)[1..] == s;
  }

  lemma {:induction false} WithHandNone(s: seq<Entry>, h: Hand)
    requires forall k :: 0 <= k < |s| ==> s[k].0 != h
    ensures WithHand(s, h) == []
  {
    if s != [] {
      WithHandNone(s[1..], h);
    }
  }

  lemma {:induction false} WithHandSome(s: seq<Entry>, h: Hand)
    requires WithHand(s, h) != []
    ensures exists k :: 0 <= k < |s| && s[k].0 == h
  {
    if s[0].0 != h {
      WithHandSome(s[1..], h);
      var k :| 0 <= k < |s[1..]| && s[1..][k].0 == h;
      assert s[k + 1].0 == h;
    }
  }

  lemma Associative<T>(a: seq<T>, b: seq<T>, c: seq<T>)
    ensures a + (b + c) == (a + b) + c
  {
  }

  /** Stable insertion: `e` goes after every entry it does not beat. */
  function Insert(e: Entry, s: seq<Entry>, joker: bool): (r: seq<Entry>)
    requires ValidHand(e.0) && ValidEntries(s)
    ensures multiset(r) == multiset(s) + multiset{e}
    ensures ValidEntries(r)
  {
    if s == [] then [e]
    else if Compare(s[0].0, e.0, joker) == Greater then [e] + s
    else
      var rest := Insert(e, s[1..], joker);
      assert s == [s[0]] + s[1..];
      assert forall i :: 1 <= i < |[s[0]] + rest| ==> ([s[0]] + rest)[i] == rest[i - 1];
      [s[0]] + rest
  }

  lemma {:induction false} InsertSorted(e: Entry, s: seq<Entry>, joker: bool)
    requires ValidHand(e.0) && ValidEntries(s) && SortedBy(s, joker)
    ensures SortedBy(Insert(e, s, joker), joker)
  {
    if s == [] {
    } else if Compare(s[0].0, e.0, joker) == Greater {
      var r := [e] + s;
      CompareReverse(s[0].0, e.0, joker);
      forall i, j | 0 <= i < j < |r| ensures AtMost(r[i].0, r[j].0, joker) {
        if i == 0 && j > 1 {
          AtMostTransitive(e.0, s[0].0, s[j - 1].0, joker);
        }
      }
    } else {
      var rest := Insert(e, s[1..], joker);
      InsertSorted(e, s[1..], joker);
      var r := [s[0]] + rest;
      forall j | 0 < j < |r| ensures AtMost(s[0].0, r[j].0, joker) {
        assert r[j] == rest[j - 1];
        assert r[j] in multiset(rest);
        if r[j] != e {
          assert r[j] in multiset(s[1..]);
          var k :| 0 <= k < |s[1..]| && s[1..][k] == r[j];
          assert s[k + 1] == r[j];
        }
      }
    }
  }

  /** Insertion keeps every hand's entries in their order, the new one last. */
  lemma {:induction false} InsertStable(e: Entry, s: seq<Entry>, h: Hand, joker: bool)
    requires ValidHand(e.0) && ValidEntries(s) && SortedBy(s, joker)
    ensures WithHand(Insert(e, s, joker), h) == WithHand(s, h) + (if e.0 == h then [e] else [])
  {
    if s == [] {
      WithHandCons(e, [], h);
    } else if Compare(s[0].0, e.0, joker) == Greater {
      WithHandCons(e, s, h);
      if e.0 == h {
        forall k | 0 <= k < |s| ensures s[k].0 != h {
          if k == 0 {
            CompareEqual(s[0].0, e.0, joker);
          }
        }
        WithHandNone(s, h);
      }
    } else {
      var rest := Insert(e, s[1..], joker);
      InsertStable(e, s[1..], h, joker);
      WithHandCons(s[0], rest, h);
      var x := if s[0].0 == h then [s[0]] else [];
      var t := if e.0 == h then [e] else [];
      calc {
        WithHand(Insert(e, s, joker), h);
        WithHand([s[0]] + rest, h);
        x + WithHand(rest, h);
        x + (WithHand(s[1..], h) + t);
        { Associative(x, WithHand(s[1..], h), t); }
        (x + WithHand(s[1..], h)) + t;
        WithHand(s, h) + t;
      }
    }
  }

  /** `sorted_by(cmp)`, which is stable: insertion sort, taking the entries
      in their order. */
  function SortEntries(s: seq<Entry>, joker: bool): (r: seq<Entry>)
    requires ValidEntries(s)
    ensures ValidEntries(r) && SortedBy(r, joker)
    ensures multiset(r) == multiset(s)
  {
    if s == [] then []
    else
      var init := s[..|s| - 1];
      assert s == init + [s[|s| - 1]];
      var sorted := SortEntries(init, joker);
      InsertSorted(s[|s| - 1], sorted, joker);
      Insert(s[|s| - 1], sorted, joker)
  }

  /** The sort is stable: the entries of each hand stay in their order. */
  lemma {:induction false} SortStable(s: seq<Entry>, h: Hand, joker: bool)
    requires ValidEntries(s)
    ensures WithHand(SortEntries(s, joker), h) == WithHand(s, h)
  {
    if s != [] {
      var init := s[..|s| - 1];
      var last := s[|s| - 1];
      var sorted := SortEntries(init, joker);
      var t := if last.0 == h then [last] else [];
      calc {
        WithHand(SortEntries(s, joker), h);
        WithHand(Insert(last, sorted, joker), h);
        { InsertStable(last, sorted, h, joker); }
        WithHand(sorted, h) + t;
        { SortStable(init, h, joker); }
        WithHand(init, h) + t;
        { WithHandAppend(init, last, h); assert s == init + [last]; }
        WithHand(s, h);
      }
    }
  }

  lemma {:induction false} WithHandAppend(s: seq<Entry>, e: Entry, h: Hand)
    ensures WithHand(s + [e], h) == WithHand(s, h) + (if e.0 == h then [e] else [])
  {
    if s == [] {
      WithHandCons(e, [], h);
      assert [] + [e] == [e];
    } else {
      WithHandAppend(s[1..], e, h);
      WithHandCons(s[0], s[1..] + [e], h);
      assert s + [e] == [s[0]] + (s[1..] + [e]);
      assert s == [s[0]] + s[1..];
    }
  }

  lemma WithHandEmpty(r1: seq<Entry>, r2: seq<Entry>)
    requires forall h :: WithHand(r1, h) == WithHand(r2, h)
    ensures r1 != [] ==> r2 != []
  {
    if r1 != [] {
      assert WithHand(r1, r1[0].0) != [];
      assert WithHand(r2, r1[0].0) != [];
    }
  }

  /** Two non-empty sorted sequences with the same entries for every hand
      start with the same hand. */
  lemma SortedHeads(r1: seq<Entry>, r2: seq<Entry>, joker: bool)
    requires ValidEntries(r1) && SortedBy(r1, joker) && r1 != []
    requires ValidEntries(r2) && SortedBy(r2, joker) && r2 != []
    requires forall h :: WithHand(r1, h) == WithHand(r2, h)
    ensures r1[0].0 == r2[0].0
  {
    var h1, h2 := r1[0].0, r2[0].0;
    assert WithHand(r1, h1) != [];
    WithHandSome(r2, h1);
    var k2 :| 0 <= k2 < |r2| && r2[k2].0 == h1;
    assert AtMost(h2, h1, joker) by {
      if k2 == 0 {
        CompareEqual(h2, h1, joker);
      } else {
        assert AtMost(r2[0].0, r2[k2].0, joker);
      }
    }
    assert WithHand(r2, h2) != [];
    WithHandSome(r1, h2);
    var k1 :| 0 <= k1 < |r1| && r1[k1].0 == h2;
    assert AtMost(h1, h2, joker) by {
      if k1 == 0 {
        CompareEqual(h1, h2, joker);
      } else {
        assert AtMost(r1[0].0, r1[k1].0, joker);
      }
    }
    CompareReverse(h1, h2, joker);
    CompareEqual(h1, h2, joker);
  }

  /** A sorted sequence is determined by the order of each hand's entries:
      two sorted sequences that agree on every hand's entries are equal. */
  lemma {:induction false} SortedUnique(r1: seq<Entry>, r2: seq<Entry>, joker: bool)
    requires ValidEntries(r1) && SortedBy(r1, joker)
    requires ValidEntries(r2) && SortedBy(r2, joker)
    requires forall h :: WithHand(r1, h) == WithHand(r2, h)
    ensures r1 == r2
    decreases |r1|
  {
    WithHandEmpty(r1, r2);
    WithHandEmpty(r2, r1);
    if r1 != [] && r2 != [] {
      var h1 := r1[0].0;
      SortedHeads(r1, r2, joker);
      assert r1[0] == r2[0] by {
        var w1, w2 := WithHand(r1, h1), WithHand(r2, h1);
        assert w1 == [r1[0]] + WithHand(r1[1..], h1);
        assert w2 == [r2[0]] + WithHand(r2[1..], h1);
        assert w1 == w2;
        assert w1[0] == r1[0] && w2[0] == r2[0];
      }
      forall h ensures WithHand(r1[1..], h) == WithHand(r2[1..], h) {
        var x := if h1 == h then [r1[0]] else [];
        assert WithHand(r1, h) == x + WithHand(r1[1..], h);
        assert WithHand(r2, h) == x + WithHand(r2[1..], h);
        assert WithHand(r1[1..], h) == (x + WithHand(r1[1..], h))[|x|..];
        assert WithHand(r2[1..], h) == (x + WithHand(r2[1..], h))[|x|..];
      }
      SortedUnique(r1[1..], r2[1..], joker);
      assert r1 == [r1[0]] + r1[1..] && r2 == [r2[0]] + r2[1..];
    }
  }

  /** The bids weighted by rank, ranks counting from `rank`. */
  function Winnings(s: seq<Entry>, rank: nat): nat {
    if s == [] then 0 else rank * s[0].1 + Winnings(s[1..], rank + 1)
  }

  /** Ranks run on across a split: the entries after `a` are ranked from
      `rank + |a|`. */
  lemma {:induction false} WinningsConcat(a: seq<Entry>, b: seq<Entry>, rank: nat)
    ensures Winnings(a + b, rank) == Winnings(a, rank) + Winnings(b, rank + |a|)
    decreases |a|
  {
    if a != [] {
      assert (a + b)[1..] == a[1..] + b;
      WinningsConcat(a[1..], b, rank + 1);
    } else {
      assert a + b == b;
    }
  }

  /** The last entry is ranked `rank + |s|`: with ranks counting from 1, the
      `i`-th entry of the sorted list (from 0) wins `i + 1` times its bid. */
  lemma WinningsAppend(s: seq<Entry>, e: Entry, rank: nat)
    ensures Winnings(s + [e], rank) == Winnings(s, rank) + (rank + |s|) * e.1
  {
    WinningsConcat(s, [e], rank);
    assert [e][1..] == [];
  }

  /** Raising every rank by one adds each bid once more. */
  lemma {:induction false} WinningsShift(s: seq<Entry>, rank: nat)
    ensures Winnings(s, rank + 1) == Winnings(s, rank) + Bids(s)
    decreases |s|
  {
    if s != [] {
      WinningsShift(s[1..], rank + 1);
    }
  }

  /** The sum of the bids. */
  function Bids(s: seq<Entry>): nat {
    if s == [] then 0 else s[0].1 + Bids(s[1..])
  }

  /** One input line: the hand, then the bid; `None` where `compute` panics. */
  function ParseEntry(line: string, joker: bool): (r: Option<Entry>)
    ensures r.Some? ==> ValidHand(r.value.0)
  {
    var words := Words(line);
    if |words| < 2 then None
    else
      match (ParseHand(words[0], joker), ParseNat(words[1]))
      case (Some(hand), Some(bid)) => Some((hand, bid))
      case _ => None
  }

  function ParseEntries(lines: seq<string>, joker: bool): (r: Option<seq<Entry>>)
    ensures r.Some? <==> forall i :: 0 <= i < |lines| ==> ParseEntry(lines[i], joker).Some?
    ensures r.Some? ==> |r.value| == |lines| && ValidEntries(r.value)
    ensures r.Some? ==> forall i :: 0 <= i < |lines| ==> Some(r.value[i]) == ParseEntry(lines[i], joker)
  {
    if lines == [] then Some([])
    else
      var tail := ParseEntries(lines[1..], joker);
      assert forall i :: 1 <= i < |lines| ==> lines[1..][i - 1] == lines[i];
      match (ParseEntry(lines[0], joker), tail)
      case (Some(e), Some(rest)) =>
        var r := [e] + rest;
        assert forall i :: 1 <= i < |r| ==> r[i] == rest[i - 1];
        Some(r)
      case _ => None
  }

  /** `exercise::compute`: the entries sorted by hand, each bid times its
      rank counting from 1. `None` where a line does not parse. */
  function Compute(lines: seq<string>, joker: bool): (r: Option<nat>)
    ensures r.Some? <==> forall i :: 0 <= i < |lines| ==> ParseEntry(lines[i], joker).Some?
  {
    match ParseEntries(lines, joker)
    case Some(entries) => Some(Winnings(SortEntries(entries, joker), 1))
    case None => None
  }

  /** The total depends on the input order only through the order of lines
      with the same hand: any reordering that keeps those gives the same total. */
  lemma ComputeReordered(lines1: seq<string>, lines2: seq<string>, joker: bool)
    requires ParseEntries(lines1, joker).Some? && ParseEntries(lines2, joker).Some?
    requires forall h :: WithHand(ParseEntries(lines1, joker).value, h) == WithHand(ParseEntries(lines2, joker).value, h)
    ensures Compute(lines1, joker) == Compute(lines2, joker)
  {
    var e1, e2 := ParseEntries(lines1, joker).value, ParseEntries(lines2, joker).value;
    forall h ensures WithHand(SortEntries(e1, joker), h) == WithHand(SortEntries(e2, joker), h) {
      SortStable(e1, h, joker);
      SortStable(e2, h, joker);
    }
    SortedUnique(SortEntries(e1, joker), SortEntries(e2, joker), joker);
  }

  /** The number of distinct values of five cards, written out. */
  lemma FiveDistinct(cards: seq<nat>)
    requires |cards| == 5
    ensures DistinctCount(cards) ==
      1 + (if cards[1] in [cards[0]] then 0 else 1)
        + (if cards[2] in [cards[0], cards[1]] then 0 else 1)
        + (if cards[3] in [cards[0], cards[1], cards[2]] then 0 else 1)
        + (if cards[4] in [cards[0], cards[1], cards[2], cards[3]] then 0 else 1)
  {
    var c := cards;
    assert c[..4] == [c[0], c[1], c[2], c[3]];
    assert c[..4][..3] == [c[0], c[1], c[2]];
    assert c[..4][..3][..2] == [c[0], c[1]];
    assert c[..4][..3][..2][..1] == [c[0]];
    assert c[..4][..3][..2][..1][..0] == [];
    assert DistinctCount([c[0]]) == 1;
    assert DistinctCount([c[0], c[1]]) == 1 + (if c[1] in [c[0]] then 0 else 1);
    assert DistinctCount([c[0], c[1], c[2]]) == DistinctCount([c[0], c[1]]) + (if c[2] in [c[0], c[1]] then 0 else 1);
    assert DistinctCount([c[0], c[1], c[2], c[3]]) ==
      DistinctCount([c[0], c[1], c[2]]) + (if c[3] in [c[0], c[1], c[2]] then 0 else 1);
  }

  // ------------------------------------------------------------- examples

  /** A card in front of parsed cards parses to its value in front. */
  lemma ParseCardsCons(c: char, rest: string, joker: bool, values: seq<nat>)
    requires values != [] && CardValue(c, joker) == Some(values[0]) && ParseCards(rest, joker) == Some(values[1..])
    ensures ParseCards([c] + rest, joker) == Some(values)
  {
    assert ([c] + rest)[1..] == rest;
    assert values == [values[0]] + values[1..];
  }

  lemma ExampleParseTail(joker: bool)
    ensures ParseCards("TA", joker) == Some([10, 14])
  {
    assert [14][1..] == [];
    ParseCardsCons('A', "", joker, [14]);
    assert [10, 14][1..] == [14];
    ParseCardsCons('T', "A", joker, [10, 14]);
  }

  lemma ExampleParseMiddle(joker: bool)
    ensures ParseCards("23TA", joker) == Some([2, 3, 10, 14])
  {
    ExampleParseTail(joker);
    assert [3, 10, 14][1..] == [10, 14];
    ParseCardsCons('3', "TA", joker, [3, 10, 14]);
    assert [2, 3, 10, 14][1..] == [3, 10, 14];
    ParseCardsCons('2', "3TA", joker, [2, 3, 10, 14]);
  }

  /** The cards of `J23TA`, with `J` as a jack or as a joker. */
  lemma ExampleParseCards(joker: bool)
    ensures ParseCards("J23TA", joker) == Some([if joker then 0 else 11, 2, 3, 10, 14])
  {
    ExampleParseMiddle(joker);
    var j: nat := if joker then 0 else 11;
    assert [j, 2, 3, 10, 14][1..] == [2, 3, 10, 14];
    ParseCardsCons('J', "23TA", joker, [j, 2, 3, 10, 14]);
  }

  lemma ExampleParse()
    ensures ParseHand("J23TA", false) == Some(Hand([11, 2, 3, 10, 14]))
    ensures ParseHand("J23TA", true) == Some(Hand([0, 2, 3, 10, 14]))
  {
    ExampleParseCards(false);
    ExampleParseCards(true);
  }

  lemma ExampleHighCard()
    ensures Classify(Hand([1, 2, 3, 4, 5]), false) == HighCard
  {
    var c: seq<nat> := [1, 2, 3, 4, 5];
    FiveDistinct(c);
  }

  lemma ExampleOnePair()
    ensures Classify(Hand([1, 2, 3, 4, 3]), false) == OnePair
  {
    var c: seq<nat> := [1, 2, 3, 4, 3];
    FiveDistinct(c);
    assert DistinctCount(c) == 4;
  }

  lemma ExampleThreeOfAKind()
    ensures Classify(Hand([1, 11, 2, 11, 11]), false) == ThreeOfAKind
  {
    var c: seq<nat> := [1, 11, 2, 11, 11];
    FiveDistinct(c);
    assert Count(c, c[1]) == 3;
  }

  lemma ExampleFourOfAKind()
    ensures Classify(Hand([14, 14, 3, 14, 14]), false) == FourOfAKind
  {
    var c: seq<nat> := [14, 14, 3, 14, 14];
    FiveDistinct(c);
    assert Count(c, c[0]) == 4;
  }

  lemma ExampleFiveOfAKind()
    ensures Classify(Hand([13, 13, 13, 13, 13]), false) == FiveOfAKind
  {
    var c: seq<nat> := [13, 13, 13, 13, 13];
    FiveDistinct(c);
  }

  lemma ExampleFullHouse()
    ensures Classify(Hand([13, 13, 13, 12, 12]), false) == FullHouse
  {
    var c: seq<nat> := [13, 13, 13, 12, 12];
    FiveDistinct(c);
    assert forall i :: 0 <= i < 5 ==> Count(c, c[i]) != 4;
  }

  lemma ExampleTwoPair()
    ensures Classify(Hand([4, 2, 3, 4, 3]), true) == TwoPair
  {
    var c: seq<nat> := [4, 2, 3, 4, 3];
    FiveDistinct(c);
    assert forall i :: 0 <= i < 5 ==> Count(c, c[i]) != 3;
  }

  lemma ExampleJokerOnePair()
    ensures Classify(Hand([1, 2, 3, 4, 0]), true) == OnePair
  {
    var c: seq<nat> := [1, 2, 3, 4, 0];
    FiveDistinct(c);
  }

  lemma ExampleJokerThreeOfAKind()
    ensures Classify(Hand([0, 2, 3, 4, 3]), true) == ThreeOfAKind
  {
    var c: seq<nat> := [0, 2, 3, 4, 3];
    FiveDistinct(c);
  }

  lemma ExampleJokerFullHouse()
    ensures Classify(Hand([4, 0, 3, 4, 3]), true) == FullHouse
  {
    var c: seq<nat> := [4, 0, 3, 4, 3];
    FiveDistinct(c);
    assert forall i :: 0 <= i < 5 ==> Count(c, c[i]) != 3;
    assert BaseClass(c) == TwoPair;
    assert Count(c, 0) == 1;
  }

  lemma ExampleJokerFourOfAKind()
    ensures Classify(Hand([0, 2, 3, 0, 3]), true) == FourOfAKind
  {
    var c: seq<nat> := [0, 2, 3, 0, 3];
    FiveDistinct(c);
    assert forall i :: 0 <= i < 5 ==> Count(c, c[i]) != 3;
  }

  lemma ExampleJokersFourOfAKind()
    ensures Classify(Hand([1, 0, 2, 0, 0]), true) == FourOfAKind
  {
    var c: seq<nat> := [1, 0, 2, 0, 0];
    FiveDistinct(c);
    assert Count(c, c[1]) == 3;
  }

  lemma ExampleJokerFiveOfAKind()
    ensures Classify(Hand([0, 0, 0, 0, 0]), true) == FiveOfAKind
  {
    var c: seq<nat> := [0, 0, 0, 0, 0];
    FiveDistinct(c);
  }

  lemma ExampleJokersFiveOfAKind()
    ensures Classify(Hand([0, 0, 0, 10, 10]), true) == FiveOfAKind
  {
    var c: seq<nat> := [0, 0, 0, 10, 10];
    FiveDistinct(c);
    assert forall i :: 0 <= i < 5 ==> Count(c, c[i]) != 4;
  }

  lemma ExampleFourThrees()
    ensures BaseClass([3, 3, 3, 3, 2]) == FourOfAKind
  {
    var c: seq<nat> := [3, 3, 3, 3, 2];
    FiveDistinct(c);
    assert Count(c, c[0]) == 4;
  }

  lemma ExampleFourAces()
    ensures BaseClass([2, 14, 14, 14, 14]) == FourOfAKind
  {
    var c: seq<nat> := [2, 14, 14, 14, 14];
    FiveDistinct(c);
    assert Count(c, c[1]) == 4;
  }

  lemma ExampleThreeEights()
    ensures BaseClass([7, 7, 8, 8, 8]) == FullHouse
  {
    var c: seq<nat> := [7, 7, 8, 8, 8];
    FiveDistinct(c);
    assert forall i :: 0 <= i < 5 ==> Count(c, c[i]) != 4;
  }

  lemma ExampleThreeSevens()
    ensures BaseClass([7, 7, 7, 8, 8]) == FullHouse
  {
    var c: seq<nat> := [7, 7, 7, 8, 8];
    FiveDistinct(c);
    assert forall i :: 0 <= i < 5 ==> Count(c, c[i]) != 4;
  }

  /** Equal classifications: the first differing card decides. */
  lemma ExampleOrderingByCards()
    ensures Compare(Hand([3, 3, 3, 3, 2]), Hand([2, 14, 14, 14, 14]), false) == Greater
  {
    ExampleFourThrees();
    ExampleFourAces();
  }

  lemma ExampleOrderingLater()
    ensures Compare(Hand([7, 7, 8, 8, 8]), Hand([7, 7, 7, 8, 8]), false) == Greater
  {
    ExampleThreeEights();
    ExampleThreeSevens();
    var a: seq<nat>, b: seq<nat> := [7, 7, 8, 8, 8], [7, 7, 7, 8, 8];
    assert a[1..][1..] == [8, 8, 8] && b[1..][1..] == [7, 8, 8];
  }

  lemma ExampleOrderingEqual()
    ensures Compare(Hand([14, 7, 14, 8, 14]), Hand([14, 7, 14, 8, 14]), false) == Equal
  {
    LexEqual([14, 7, 14, 8, 14], [14, 7, 14, 8, 14]);
  }
}
