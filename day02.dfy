/** Day 2: Cube Conundrum. A game is a list of hands of red, green and blue
    cubes drawn from a bag; part one sums the ids of the games possible with
    12 red, 13 green and 14 blue cubes, part two sums the power of the
    smallest bag each game needs. */
module Day2Cubes {
  import opened Wrappers
  import opened Strings
  import Collections

  /** The cube counts of one hand (`u32`s, so below `U32_LIMIT`). */
  datatype Hand = Hand(red: nat, green: nat, blue: nat)

  datatype Game = Game(id: nat, hands: seq<Hand>)

  datatype Colour = Red | Green | Blue

  /** The colour a word names, if any. */
  function ColourOf(word: string): Option<Colour> {
    if word == "red" then Some(Red)
    else if word == "green" then Some(Green)
    else if word == "blue" then Some(Blue)
    else None
  }

  /** The words of a `"N colour"` segment (`split(" ")`). */
  function SegmentWords(segment: string): seq<string> {
    SplitAny(segment, {' '})
  }

  /** The component of `hand` named by `colour`. */
  function Component(hand: Hand, colour: Colour): nat {
    match colour
    case Red => hand.red
    case Green => hand.green
    case Blue => hand.blue
  }

  /** One iteration of the loop in `Hand::parse`: a segment with two words
      and a known colour sets that colour (the last one wins); anything else
      is skipped. `None` where `parse().unwrap()` panics. */
  function Apply(hand: Hand, segment: string): Option<Hand> {
    var words := SegmentWords(segment);
    if |words| < 2 || ColourOf(words[1]).None? then Some(hand)
    else
      match ParseBounded(words[0], U32_LIMIT)
      case None => None
      case Some(n) =>
        match ColourOf(words[1]).value
        case Red => Some(hand.(red := n))
        case Green => Some(hand.(green := n))
        case Blue => Some(hand.(blue := n))
  }

  /** The loop of `Hand::parse` over the remaining segments. */
  function ApplyAll(hand: Hand, segments: seq<string>): Option<Hand>
    decreases segments
  {
    if segments == [] then Some(hand)
    else
      match Apply(hand, segments[0])
      case None => None
      case Some(next) => ApplyAll(next, segments[1..])
  }

  /** What `Hand::parse` computes: all colours start at 0. */
  function HandOf(input: string): Option<Hand> {
    ApplyAll(Hand(0, 0, 0), SplitStr(input, ", "))
  }

  /** `Hand::parse`: the `for` loop over the `", "`-separated segments with
      the three mutable counters. `None` where it panics. */
  method ParseHand(input: string) returns (r: Option<Hand>)
    ensures r == HandOf(input)
  {
    var segments := SplitStr(input, ", ");
    var red, green, blue := 0, 0, 0;
    var i := 0;
    while i < |segments|
      invariant 0 <= i <= |segments|
      invariant ApplyAll(Hand(red, green, blue), segments[i..]) == HandOf(input)
    {
      var words := SegmentWords(segments[i]);
      assert segments[i..][0] == segments[i] && segments[i..][1..] == segments[i + 1..];
      if |words| >= 2 {
        var count := ParseBounded(words[0], U32_LIMIT);
        if words[1] == "red" {
          if count.None? {
            return None;
          }
          red := count.value;
        } else if words[1] == "green" {
          if count.None? {
            return None;
          }
          green := count.value;
        } else if words[1] == "blue" {
          if count.None? {
            return None;
          }
          blue := count.value;
        }
      }
      i := i + 1;
    }
    return Some(Hand(red, green, blue));
  }

  // ------------------------------------------- the parse, colour by colour

  /** The count word of a segment naming `colour`, if it names it. */
  function SegmentCount(segment: string, colour: Colour): seq<string> {
    var words := SegmentWords(segment);
    if |words| >= 2 && ColourOf(words[1]) == Some(colour) then [words[0]] else []
  }

  /** The count words of the segments that name `colour`, in order. */
  function Named(segments: seq<string>, colour: Colour): seq<string> {
    if segments == [] then [] else SegmentCount(segments[0], colour) + Named(segments[1..], colour)
  }

  /** The value of the last count word, or `default` when there is none. */
  function LastCount(counts: seq<string>, default: nat): nat {
    if counts == [] then default else ParseBounded(counts[|counts| - 1], U32_LIMIT).GetOr(0)
  }

  lemma LastCountAppend(first: seq<string>, rest: seq<string>, default: nat)
    requires |first| <= 1
    ensures LastCount(first + rest, default) == LastCount(rest, LastCount(first, default))
  {
    if rest == [] {
      assert first + rest == first;
    } else {
      assert (first + rest)[|first + rest| - 1] == rest[|rest| - 1];
    }
  }

  /** A segment the loop gets past without panicking. */
  predicate SegmentParses(segment: string) {
    var words := SegmentWords(segment);
    |words| < 2 || ColourOf(words[1]).None? || ParseBounded(words[0], U32_LIMIT).Some?
  }

  /** The parse succeeds exactly when every segment gets past the loop. */
  lemma {:induction false} ApplyAllSucceeds(hand: Hand, segments: seq<string>)
    ensures ApplyAll(hand, segments).Some? <==> forall i :: 0 <= i < |segments| ==> SegmentParses(segments[i])
    decreases segments
  {
    if segments != [] {
      if Apply(hand, segments[0]).Some? {
        ApplyAllSucceeds(Apply(hand, segments[0]).value, segments[1..]);
        assert forall i :: 1 <= i < |segments| ==> segments[i] == segments[1..][i - 1];
      }
    }
  }

  /** One segment sets the colour it names and leaves the others alone. */
  lemma ApplyColour(hand: Hand, segment: string, colour: Colour)
    requires Apply(hand, segment).Some?
    ensures Component(Apply(hand, segment).value, colour) ==
      LastCount(SegmentCount(segment, colour), Component(hand, colour))
  {
  }

  /** Each colour is the count of the last segment naming it, or its
      starting value when none does: skipped segments change nothing and
      missing colours keep their default. */
  lemma {:induction false} ApplyAllColour(hand: Hand, segments: seq<string>, colour: Colour)
    requires ApplyAll(hand, segments).Some?
    ensures Component(ApplyAll(hand, segments).value, colour) ==
      LastCount(Named(segments, colour), Component(hand, colour))
    decreases segments
  {
    if segments != [] {
      var next := Apply(hand, segments[0]).value;
      ApplyAllColour(next, segments[1..], colour);
      ApplyColour(hand, segments[0], colour);
      LastCountAppend(SegmentCount(segments[0], colour), Named(segments[1..], colour), Component(hand, colour));
    }
  }

  /** Colour by colour, what `Hand::parse` returns: the count of the last
      segment naming the colour, or 0. */
  lemma HandOfByColour(input: string, colour: Colour)
    requires HandOf(input).Some?
    ensures Component(HandOf(input).value, colour) == LastCount(Named(SplitStr(input, ", "), colour), 0)
  {
    ApplyAllColour(Hand(0, 0, 0), SplitStr(input, ", "), colour);
  }

  // ------------------------------------------------------ the text format

  /** A `"N colour"` segment. */
  function Segment(n: nat, colour: string): string {
    NatToString(n) + " " + colour
  }

  /** A hand written in the puzzle's format, colours in the order red,
      green, blue. */
  function FormatHand(hand: Hand): string {
    Join([Segment(hand.red, "red"), Segment(hand.green, "green"), Segment(hand.blue, "blue")], ", ")
  }

  predicate HandFits(hand: Hand) {
    hand.red < U32_LIMIT && hand.green < U32_LIMIT && hand.blue < U32_LIMIT
  }

  /** The words of a segment. */
  lemma SegmentWordsOf(n: nat, colour: string)
    requires NoChar(colour, ' ')
    ensures SegmentWords(Segment(n, colour)) == [NatToString(n), colour]
  {
    assert Segment(n, colour) == NatToString(n) + ([' '] + colour);
    SplitAnyPiece(NatToString(n), ' ', colour, {' '});
    SplitAnyNone(colour, {' '});
  }

  /** A segment holds no character other than digits, a space and the
      colour's letters. */
  lemma NoCharSegment(n: nat, colour: string, c: char)
    requires !IsDigit(c) && c != ' ' && NoChar(colour, c)
    ensures NoChar(Segment(n, colour), c)
  {
    NoCharNatToString(n, c);
    NoCharConcat(NatToString(n), " ", c);
    NoCharConcat(NatToString(n) + " ", colour, c);
  }

  /** A formatted hand holds no character of the separators around it. */
  lemma NoCharFormatHand(hand: Hand, c: char)
    requires c == ',' || c == ';' || c == ':'
    ensures NoChar(Segment(hand.red, "red"), c) && NoChar(Segment(hand.green, "green"), c)
    ensures NoChar(Segment(hand.blue, "blue"), c)
    ensures c != ',' ==> NoChar(FormatHand(hand), c)
  {
    NoCharSegment(hand.red, "red", c);
    NoCharSegment(hand.green, "green", c);
    NoCharSegment(hand.blue, "blue", c);
    if c != ',' {
      NoCharJoin([Segment(hand.red, "red"), Segment(hand.green, "green"), Segment(hand.blue, "blue")], ", ", c);
    }
  }

  /** Reading one segment sets its colour. */
  lemma ApplySegment(hand: Hand, n: nat, colour: string)
    requires n < U32_LIMIT && NoChar(colour, ' ') && ColourOf(colour).Some?
    ensures Apply(hand, Segment(n, colour)) == Some(
      match ColourOf(colour).value
      case Red => hand.(red := n)
      case Green => hand.(green := n)
      case Blue => hand.(blue := n))
  {
    SegmentWordsOf(n, colour);
    ParseNatOfNatToString(n);
  }

  /** `Hand::parse` reads back a formatted hand. */
  lemma HandOfFormat(hand: Hand)
    requires HandFits(hand)
    ensures HandOf(FormatHand(hand)) == Some(hand)
  {
    var r, g, b := Segment(hand.red, "red"), Segment(hand.green, "green"), Segment(hand.blue, "blue");
    assert SplitStr(FormatHand(hand), ", ") == [r, g, b] by {
      NoCharFormatHand(hand, ',');
      SplitStrJoin([r, g, b], ", ");
    }
    var h1 := Hand(hand.red, 0, 0);
    var h2 := Hand(hand.red, hand.green, 0);
    calc {
      HandOf(FormatHand(hand));
      ApplyAll(Hand(0, 0, 0), [r, g, b]);
      { ApplySegment(Hand(0, 0, 0), hand.red, "red");
        assert [r, g, b][1..] == [g, b]; }
      ApplyAll(h1, [g, b]);
      { ApplySegment(h1, hand.green, "green");
        assert [g, b][1..] == [b]; }
      ApplyAll(h2, [b]);
      { ApplySegment(h2, hand.blue, "blue");
        assert [b][1..] == []; }
      ApplyAll(hand, []);
    }
  }

  function FormatHands(hands: seq<Hand>): (r: seq<string>)
    ensures |r| == |hands| && forall i :: 0 <= i < |hands| ==> r[i] == FormatHand(hands[i])
  {
    if hands == [] then [] else [FormatHand(hands[0])] + FormatHands(hands[1..])
  }

  /** A game written in the puzzle's format. */
  function FormatGame(game: Game): string {
    "Game " + NatToString(game.id) + ": " + Join(FormatHands(game.hands), "; ")
  }

  /** `Game::parse` reads back a formatted game: the id, and the hands in
      their order. A game has at least one hand, since splitting the empty
      text gives one empty piece. */
  lemma ParseGameFormat(game: Game)
    requires game.id < U32_LIMIT && |game.hands| >= 1
    requires forall i :: 0 <= i < |game.hands| ==> HandFits(game.hands[i])
    ensures ParseGame(FormatGame(game)) == Some(game)
  {
    var texts := FormatHands(game.hands);
    var rest := Join(texts, "; ");
    var title := "Game " + NatToString(game.id);
    forall i | 0 <= i < |texts| ensures NoChar(texts[i], ';') && NoChar(texts[i], ':') {
      NoCharFormatHand(game.hands[i], ';');
      NoCharFormatHand(game.hands[i], ':');
    }
    TitleSplit(game.id, texts);
    TitleWords(game.id);
    ParseNatOfNatToString(game.id);
    ParseHandsFormat(game.hands);
    ParseGameOfParts(FormatGame(game), title, rest, NatToString(game.id), game);
  }

  /** The line splits once, at the ": " after the id. */
  lemma TitleSplit(id: nat, texts: seq<string>)
    requires forall i :: 0 <= i < |texts| ==> NoChar(texts[i], ':')
    ensures SplitStr("Game " + NatToString(id) + ": " + Join(texts, "; "), ": ")
         == ["Game " + NatToString(id), Join(texts, "; ")]
  {
    var rest := Join(texts, "; ");
    var title := "Game " + NatToString(id);
    NoCharJoin(texts, "; ", ':');
    NoCharNatToString(id, ':');
    NoCharConcat("Game ", NatToString(id), ':');
    SplitStrPiece(title, ": ", rest);
    SplitStrNone(rest, ": ");
  }

  lemma TitleWords(id: nat)
    ensures SegmentWords("Game " + NatToString(id)) == ["Game", NatToString(id)]
  {
    assert "Game " + NatToString(id) == "Game" + ([' '] + NatToString(id));
    SplitAnyPiece("Game", ' ', NatToString(id), {' '});
    SplitAnyNone(NatToString(id), {' '});
  }

  /** The hands of a formatted game parse back. */
  lemma ParseHandsFormat(hands: seq<Hand>)
    requires |hands| >= 1
    requires forall i :: 0 <= i < |hands| ==> HandFits(hands[i])
    ensures ParseHands(SplitStr(Join(FormatHands(hands), "; "), "; ")) == Some(hands)
  {
    var texts := FormatHands(hands);
    FormatHandsNoSemicolon(hands);
    SplitStrJoin(texts, "; ");
    FormatHandsParse(hands);
  }

  lemma FormatHandsNoSemicolon(hands: seq<Hand>)
    ensures forall i :: 0 <= i < |hands| ==> NoChar(FormatHands(hands)[i], ';')
  {
    forall i | 0 <= i < |hands| ensures NoChar(FormatHands(hands)[i], ';') {
      NoCharFormatHand(hands[i], ';');
    }
  }

  lemma FormatHandsParse(hands: seq<Hand>)
    requires forall i :: 0 <= i < |hands| ==> HandFits(hands[i])
    ensures ParseHands(FormatHands(hands)) == Some(hands)
  {
    var texts := FormatHands(hands);
    forall i | 0 <= i < |texts| ensures HandOf(texts[i]) == Some(hands[i]) {
      HandOfFormat(hands[i]);
    }
    assert ParseHands(texts).value == hands;
  }

  lemma ParseGameOfParts(line: string, title: string, rest: string, id: string, game: Game)
    requires SplitStr(line, ": ") == [title, rest] && SegmentWords(title) == ["Game", id]
    requires ParseBounded(id, U32_LIMIT) == Some(game.id)
    requires ParseHands(SplitStr(rest, "; ")) == Some(game.hands)
    ensures ParseGame(line) == Some(game)
  {
  }

  // ----------------------------------------------------------- validation

  /** `Hand::validate`: the hand could be drawn from a bag of the given cubes. */
  predicate Validate(hand: Hand, red: nat, green: nat, blue: nat) {
    hand.red <= red && hand.green <= green && hand.blue <= blue
  }

  /** `Hand::power`. The `u32` overflow of the product is not modelled. */
  function Power(hand: Hand): nat {
    hand.red * hand.green * hand.blue
  }

  /** `Game::validate`: every hand validates. */
  predicate ValidateGame(game: Game, red: nat, green: nat, blue: nat) {
    forall i :: 0 <= i < |game.hands| ==> Validate(game.hands[i], red, green, blue)
  }

  /** `Game::max_hand`: the componentwise maximum, folded from zeros. Every
      hand validates against it, and each component is 0 or some hand's. */
  function MaxHand(hands: seq<Hand>): (m: Hand)
    ensures forall i :: 0 <= i < |hands| ==> Validate(hands[i], m.red, m.green, m.blue)
    ensures m.red == 0 || exists i :: 0 <= i < |hands| && hands[i].red == m.red
    ensures m.green == 0 || exists i :: 0 <= i < |hands| && hands[i].green == m.green
    ensures m.blue == 0 || exists i :: 0 <= i < |hands| && hands[i].blue == m.blue
  {
    if hands == [] then Hand(0, 0, 0)
    else
      var acc := MaxHand(hands[..|hands| - 1]);
      var hand := hands[|hands| - 1];
      assert forall i :: 0 <= i < |hands| - 1 ==> hands[i] == hands[..|hands| - 1][i];
      Hand(Max(acc.red, hand.red), Max(acc.green, hand.green), Max(acc.blue, hand.blue))
  }

  function Max(a: nat, b: nat): nat {
    if a < b then b else a
  }

  /** A game is possible with a bag exactly when its max hand is, so the max
      hand is the smallest bag that makes the game possible. */
  lemma ValidateByMaxHand(game: Game, red: nat, green: nat, blue: nat)
    ensures ValidateGame(game, red, green, blue) <==> Validate(MaxHand(game.hands), red, green, blue)
  {
    var m := MaxHand(game.hands);
    if ValidateGame(game, red, green, blue) {
      if m.red != 0 {
        var i :| 0 <= i < |game.hands| && game.hands[i].red == m.red;
        assert Validate(game.hands[i], red, green, blue);
      }
      if m.green != 0 {
        var i :| 0 <= i < |game.hands| && game.hands[i].green == m.green;
        assert Validate(game.hands[i], red, green, blue);
      }
      if m.blue != 0 {
        var i :| 0 <= i < |game.hands| && game.hands[i].blue == m.blue;
        assert Validate(game.hands[i], red, green, blue);
      }
    }
  }

  /** The power of the max hand is the fewest cubes, as a product, of any
      bag that makes the game possible. */
  lemma PowerIsLeast(game: Game, red: nat, green: nat, blue: nat)
    requires ValidateGame(game, red, green, blue)
    ensures Power(MaxHand(game.hands)) <= red * green * blue
  {
    ValidateByMaxHand(game, red, green, blue);
    var m := MaxHand(game.hands);
    assert Validate(m, red, green, blue);
    ProductMonotone(m.red, m.green, m.blue, red, green, blue);
  }

  lemma ProductMonotone(a: nat, b: nat, c: nat, x: nat, y: nat, z: nat)
    requires a <= x && b <= y && c <= z
    ensures a * b * c <= x * y * z
  {
    MulMonotone(a, x, b, y);
    MulMonotone(a * b, x * y, c, z);
  }

  lemma MulMonotone(a: nat, b: nat, c: nat, d: nat)
    requires a <= b && c <= d
    ensures a * c <= b * d
  {
    assert a * c <= b * c <= b * d;
  }

  // ---------------------------------------------------------------- games

  /** `Hand::parse` applied to each piece, keeping their order; `None` where
      one panics. */
  function ParseHands(pieces: seq<string>): (r: Option<seq<Hand>>)
    ensures r.Some? <==> forall i :: 0 <= i < |pieces| ==> HandOf(pieces[i]).Some?
    ensures r.Some? ==> |r.value| == |pieces|
    ensures r.Some? ==> forall i :: 0 <= i < |pieces| ==> Some(r.value[i]) == HandOf(pieces[i])
  {
    Collections.ParseEach(pieces, HandOf)
  }

  /** `Game::parse`: `"Game N: "`, then `"; "`-separated hands. `None` where
      it panics: no `": "`, no second word before it, an id that is not a
      `u32`, or a hand that does not parse. */
  function ParseGame(line: string): (r: Option<Game>)
    ensures r.Some? ==> r.value.id < U32_LIMIT
  {
    var pieces := SplitStr(line, ": ");
    var head := SegmentWords(pieces[0]);
    if |pieces| < 2 || |head| < 2 then None
    else
      match (ParseBounded(head[1], U32_LIMIT), ParseHands(SplitStr(pieces[1], "; ")))
      case (Some(id), Some(hands)) => Some(Game(id, hands))
      case _ => None
  }

  function ParseGames(lines: seq<string>): (r: Option<seq<Game>>)
    ensures r.Some? <==> forall i :: 0 <= i < |lines| ==> ParseGame(lines[i]).Some?
    ensures r.Some? ==> |r.value| == |lines|
    ensures r.Some? ==> forall i :: 0 <= i < |lines| ==> Some(r.value[i]) == ParseGame(lines[i])
  {
    Collections.ParseEach(lines, ParseGame)
  }

  /** The ids of the games possible with the bag, summed. */
  function PossibleIds(games: seq<Game>, red: nat, green: nat, blue: nat): nat {
    if games == [] then 0
    else (if ValidateGame(games[0], red, green, blue) then games[0].id else 0) + PossibleIds(games[1..], red, green, blue)
  }

  /** A bigger bag makes at least the same games possible. */
  lemma {:induction false} PossibleIdsMonotone(games: seq<Game>, red: nat, green: nat, blue: nat, red': nat, green': nat, blue': nat)
    requires red <= red' && green <= green' && blue <= blue'
    ensures PossibleIds(games, red, green, blue) <= PossibleIds(games, red', green', blue')
  {
    if games != [] {
      PossibleIdsMonotone(games[1..], red, green, blue, red', green', blue');
      if ValidateGame(games[0], red, green, blue) {
        assert ValidateGame(games[0], red', green', blue') by {
          forall i | 0 <= i < |games[0].hands| ensures Validate(games[0].hands[i], red', green', blue') {
            assert Validate(games[0].hands[i], red, green, blue);
          }
        }
      }
    }
  }

  const RED: nat := 12
  const GREEN: nat := 13
  const BLUE: nat := 14

  /** `exercise1::compute`: the ids of the games possible with 12 red, 13
      green and 14 blue cubes. `None` where a line does not parse. */
  function Compute1(lines: seq<string>): (r: Option<nat>)
    ensures r.Some? <==> forall i :: 0 <= i < |lines| ==> ParseGame(lines[i]).Some?
  {
    match ParseGames(lines)
    case Some(games) => Some(PossibleIds(games, RED, GREEN, BLUE))
    case None => None
  }

  /** The powers of the games' max hands, summed. */
  function Powers(games: seq<Game>): nat {
    if games == [] then 0 else Power(MaxHand(games[0].hands)) + Powers(games[1..])
  }

  /** `exercise2::compute`. `None` where a line does not parse. */
  function Compute2(lines: seq<string>): (r: Option<nat>)
    ensures r.Some? <==> forall i :: 0 <= i < |lines| ==> ParseGame(lines[i]).Some?
  {
    match ParseGames(lines)
    case Some(games) => Some(Powers(games))
    case None => None
  }

  /** Part two is at most what any bags making each game possible would give. */
  lemma {:induction false} PowersAreLeast(games: seq<Game>, bags: seq<Hand>)
    requires |bags| == |games|
    requires forall i :: 0 <= i < |games| ==> ValidateGame(games[i], bags[i].red, bags[i].green, bags[i].blue)
    ensures Powers(games) <= BagPowers(bags)
  {
    if games != [] {
      PowerIsLeast(games[0], bags[0].red, bags[0].green, bags[0].blue);
      PowersAreLeast(games[1..], bags[1..]);
    }
  }

  function BagPowers(bags: seq<Hand>): nat {
    if bags == [] then 0 else Power(bags[0]) + BagPowers(bags[1..])
  }

  // ------------------------------------------------------------- examples

  /** A hand with no `", "` and a single word is skipped: all zeros. */
  lemma ExampleBadHand()
    ensures HandOf("bad") == Some(Hand(0, 0, 0))
  {
    SplitStrNone("bad", ", ");
    SplitAnyNone("bad", {' '});
  }

  /** The game of the tests, as values: possible with 14/7/3, not with
      13/7/3, and its max hand is 14/7/3. */
  lemma ExampleGame()
    ensures var g := Game(2, [Hand(4, 7, 2), Hand(0, 2, 3), Hand(14, 3, 1)]);
      ValidateGame(g, 14, 7, 3) && !ValidateGame(g, 13, 7, 3) && MaxHand(g.hands) == Hand(14, 7, 3)
  {
    var g := Game(2, [Hand(4, 7, 2), Hand(0, 2, 3), Hand(14, 3, 1)]);
    assert !Validate(g.hands[2], 13, 7, 3);
    assert g.hands[..2][..1] == [Hand(4, 7, 2)];
  }
}
