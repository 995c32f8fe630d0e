/** Day 4: Scratchcards. Each card lists winning numbers and the numbers
    you have; part one scores each card by doubling per match, part two
    wins copies of the following cards and counts all cards in the end. */
module Day4Scratchcards {
  import opened Wrappers
  import opened Strings
  import opened Collections

  /** The two number sets of a card (`HashSet<u32>`s). */
  datatype Card = Card(winning: set<nat>, have: set<nat>)

  // -------------------------------------------------------------- parsing

  /** Every word parsed as a `u32`, in order; `None` where `unwrap`
      panics. */
  function ParseAll(words: seq<string>): (r: Option<seq<nat>>)
    ensures r.Some? <==> forall i :: 0 <= i < |words| ==> ParseBounded(words[i], U32_LIMIT).Some?
    ensures r.Some? ==> |r.value| == |words|
    ensures r.Some? ==> forall i :: 0 <= i < |words| ==> Some(r.value[i]) == ParseBounded(words[i], U32_LIMIT)
  {
    if words == [] then Some([])
    else
      match (ParseBounded(words[0], U32_LIMIT), ParseAll(words[1..]))
      case (Some(n), Some(rest)) => Some([n] + rest)
      case _ => None
  }

  /** The numbers of one half of a card as a set: `trim`, then
      `split_ascii_whitespace`, then `parse::<u32>().unwrap()`. */
  function Numbers(piece: string): (r: Option<set<nat>>)
    ensures r.Some? <==> ParseAll(Words(piece)).Some?
    ensures r.Some? ==> forall x :: x in r.value <==> x in ParseAll(Words(piece)).value
  {
    match ParseAll(Words(piece))
    case Some(ns) => Some(set x | x in ns)
    case None => None
  }

  /** `parse_line`: split on `:` and `|`, drop the title, and parse the two
      remaining pieces. `None` where it panics: not exactly two pieces after
      the title, or a word that is not a `u32`. */
  function ParseLine(line: string): (r: Option<Card>)
    ensures r.Some? ==> |SplitAny(line, {':', '|'})| == 3
  {
    var pieces := SplitAny(line, {':', '|'});
    if |pieces| != 3 then None
    else
      match (Numbers(pieces[1]), Numbers(pieces[2]))
      case (Some(winning), Some(have)) => Some(Card(winning, have))
      case _ => None
  }

  /** A trailing space does not change the words. */
  lemma {:induction false} WordsTrailingSpace(s: string, c: char)
    requires IsSpace(c)
    ensures Words(s + [c]) == Words(s)
    decreases |s|
  {
    if s == [] {
      assert Words([c]) == Words([]);
    } else if IsSpace(s[0]) {
      assert (s + [c])[1..] == s[1..] + [c];
      WordsTrailingSpace(s[1..], c);
    } else {
      var n := WordLength(s);
      assert s == s[..n] + s[n..];
      assert s + [c] == s[..n] + (s[n..] + [c]);
      WordLengthOfWord(s[..n], s[n..] + [c]);
      assert (s + [c])[..n] == s[..n];
      assert (s + [c])[n..] == s[n..] + [c];
      WordsTrailingSpace(s[n..], c);
    }
  }

  /** A number list as a card shows it, separated by single spaces. */
  function NumbersText(ns: seq<nat>): (r: seq<string>)
    ensures |r| == |ns|
    ensures forall i :: 0 <= i < |ns| ==> r[i] == NatToString(ns[i])
  {
    if ns == [] then [] else [NatToString(ns[0])] + NumbersText(ns[1..])
  }

  /** A card line: `"Card N: w1 w2 ... | h1 h2 ..."`. */
  function FormatCard(id: nat, winning: seq<nat>, have: seq<nat>): string {
    "Card " + NatToString(id) + ": " + Join(NumbersText(winning), " ") + " | " + Join(NumbersText(have), " ")
  }

  lemma NoSpaceDigits(n: nat)
    ensures NatToString(n) != [] && NoSpace(NatToString(n))
  {
  }

  /** The words of a formatted number list parse back to the list. */
  lemma ParseAllText(ns: seq<nat>)
    requires forall i :: 0 <= i < |ns| ==> ns[i] < U32_LIMIT
    ensures ParseAll(Words(Join(NumbersText(ns), " "))) == Some(ns)
  {
    var texts := NumbersText(ns);
    forall i | 0 <= i < |texts| ensures texts[i] != [] && NoSpace(texts[i]) {
      NoSpaceDigits(ns[i]);
    }
    WordsOfJoin(texts);
    forall i | 0 <= i < |ns| ensures ParseBounded(texts[i], U32_LIMIT) == Some(ns[i]) {
      ParseNatOfNatToString(ns[i]);
    }
    assert ParseAll(texts).value == ns;
  }

  /** Digits and spaces hold no `:` or `|`. */
  lemma NoSeparator(ns: seq<nat>, c: char)
    requires c == ':' || c == '|'
    ensures NoChar(Join(NumbersText(ns), " "), c)
  {
    forall i | 0 <= i < |NumbersText(ns)| ensures NoChar(NumbersText(ns)[i], c) {
      NoCharNatToString(ns[i], c);
    }
    NoCharJoin(NumbersText(ns), " ", c);
  }

  /** A formatted card splits into its title and its two halves. */
  lemma SplitCard(id: nat, winning: seq<nat>, have: seq<nat>)
    ensures SplitAny(FormatCard(id, winning, have), {':', '|'})
         == ["Card " + NatToString(id), " " + Join(NumbersText(winning), " ") + " ", " " + Join(NumbersText(have), " ")]
  {
    var title := "Card " + NatToString(id);
    var w := " " + Join(NumbersText(winning), " ") + " ";
    var h := " " + Join(NumbersText(have), " ");
    assert FormatCard(id, winning, have) == title + ":" + w + "|" + h;
    assert NoSeparators(title) by {
      NoCharNatToString(id, ':');
      NoCharNatToString(id, '|');
      NoCharConcat("Card ", NatToString(id), ':');
      NoCharConcat("Card ", NatToString(id), '|');
    }
    NoSeparatorsPadded(winning, " ", " ");
    NoSeparatorsPadded(have, " ", "");
    assert h == " " + Join(NumbersText(have), " ") + "";
    SplitSeparators(title, w, h);
  }

  /** A number list with padding around it holds no separator. */
  lemma NoSeparatorsPadded(ns: seq<nat>, before: string, after: string)
    requires NoSeparators(before) && NoSeparators(after)
    ensures NoSeparators(before + Join(NumbersText(ns), " ") + after)
  {
    var j := Join(NumbersText(ns), " ");
    NoSeparator(ns, ':');
    NoSeparator(ns, '|');
    NoCharConcat(before, j, ':');
    NoCharConcat(before, j, '|');
    NoCharConcat(before + j, after, ':');
    NoCharConcat(before + j, after, '|');
  }

  /** Three separator-free pieces around a `:` and a `|` split back apart. */
  lemma SplitSeparators(a: string, b: string, c: string)
    requires NoSeparators(a) && NoSeparators(b) && NoSeparators(c)
    ensures SplitAny(a + ":" + b + "|" + c, {':', '|'}) == [a, b, c]
  {
    var rest := b + (['|'] + c);
    Regroup(a, ':', b, '|', c);
    SplitAround(a, ':', rest);
    SplitAround(b, '|', c);
    SplitAnyNone(c, {':', '|'});
    assert [a] + ([b] + [c]) == [a, b, c];
  }

  lemma Regroup(a: string, x: char, b: string, y: char, c: string)
    ensures a + [x] + b + [y] + c == a + ([x] + (b + ([y] + c)))
  {
  }

  /** A piece without separators, a separator, then the rest. */
  lemma SplitAround(w: string, sep: char, rest: string)
    requires NoSeparators(w) && sep in {':', '|'}
    ensures SplitAny(w + ([sep] + rest), {':', '|'}) == [w] + SplitAny(rest, {':', '|'})
  {
    assert forall j :: 0 <= j < |w| ==> w[j] !in {':', '|'};
    SplitAnyPiece(w, sep, rest, {':', '|'});
  }

  predicate NoSeparators(s: string) {
    NoChar(s, ':') && NoChar(s, '|')
  }

  /** A formatted card parses back to the sets of its numbers. */
  lemma ParseLineFormat(id: nat, winning: seq<nat>, have: seq<nat>)
    requires forall i :: 0 <= i < |winning| ==> winning[i] < U32_LIMIT
    requires forall i :: 0 <= i < |have| ==> have[i] < U32_LIMIT
    ensures ParseLine(FormatCard(id, winning, have))
         == Some(Card(set x | x in winning, set x | x in have))
  {
    SplitCard(id, winning, have);
    var jw := Join(NumbersText(winning), " ");
    var jh := Join(NumbersText(have), " ");
    assert Words(" " + jw + " ") == Words(jw) by {
      WordsTrailingSpace(" " + jw, ' ');
      assert (" " + jw)[1..] == jw;
    }
    assert Words(" " + jh) == Words(jh) by {
      assert (" " + jh)[1..] == jh;
    }
    ParseAllText(winning);
    ParseAllText(have);
  }

  // ------------------------------------------------------------- scoring

  /** The numbers of a card that win (`winning.intersection(&have).count()`). */
  function Matches(card: Card): nat {
    |card.winning * card.have|
  }

  function Pow2(n: nat): (r: nat)
    ensures r >= 1
  {
    if n == 0 then 1 else 2 * Pow2(n - 1)
  }

  /** The score of a card with `count` matches: 0 without matches, else
      `2^(count - 1)`. */
  function Score(count: nat): nat {
    if count > 0 then Pow2(count - 1) else 0
  }

  /** The first match scores 1 and every further match doubles the score. */
  lemma ScoreDoubles(count: nat)
    ensures Score(count) == 0 <==> count == 0
    ensures Score(1) == 1
    ensures count >= 1 ==> Score(count + 1) == 2 * Score(count)
  {
  }

  /** Every line parsed, keeping the order; `None` where one panics. */
  function ParseLines(lines: seq<string>): (r: Option<seq<Card>>)
    ensures r.Some? <==> forall i :: 0 <= i < |lines| ==> ParseLine(lines[i]).Some?
    ensures r.Some? ==> |r.value| == |lines|
    ensures r.Some? ==> forall i :: 0 <= i < |lines| ==> Some(r.value[i]) == ParseLine(lines[i])
  {
    if lines == [] then Some([])
    else
      match (ParseLine(lines[0]), ParseLines(lines[1..]))
      case (Some(card), Some(rest)) => Some([card] + rest)
      case _ => None
  }

  function Scores(cards: seq<Card>): nat {
    if cards == [] then 0 else Score(Matches(cards[0])) + Scores(cards[1..])
  }

  /** `exercise1::compute`. `None` where a line does not parse. */
  function Compute1(lines: seq<string>): (r: Option<nat>)
    ensures r.Some? <==> forall i :: 0 <= i < |lines| ==> ParseLine(lines[i]).Some?
  {
    match ParseLines(lines)
    case Some(cards) => Some(Scores(cards))
    case None => None
  }

  // -------------------------------------------------------------- copies

  /** No card wins copies past the end of the table; otherwise indexing
      `num_cards` panics. */
  predicate InRange(matchings: seq<nat>) {
    forall i :: 0 <= i < |matchings| ==> i + matchings[i] < |matchings|
  }

  /** Processing one card: each index in `lo..hi` gains `amount` copies,
      every other entry stays. */
  function AddCopies(v: seq<nat>, lo: nat, hi: nat, amount: nat): (r: seq<nat>)
    ensures |r| == |v|
    ensures forall k :: 0 <= k < |v| ==> r[k] == v[k] + (if lo <= k < hi then amount else 0)
  {
    seq(|v|, k requires 0 <= k < |v| => v[k] + (if lo <= k < hi then amount else 0))
  }

  /** `num_cards` after the first `i` cards were processed. */
  function Run(matchings: seq<nat>, i: nat): (r: seq<nat>)
    requires i <= |matchings|
    ensures |r| == |matchings|
  {
    if i == 0 then seq(|matchings|, _ => 1)
    else
      var v := Run(matchings, i - 1);
      AddCopies(v, i, i + matchings[i - 1], v[i - 1])
  }

  /** The number of copies of card `k` as a recurrence: the original, plus
      the copies of every earlier card whose winnings reach `k`. */
  function Copies(matchings: seq<nat>, k: nat): nat
    requires k < |matchings|
    decreases k, 1, 0
  {
    1 + Contributions(matchings, k, k)
  }

  /** What the cards before `j` contribute to card `k`. */
  function Contributions(matchings: seq<nat>, k: nat, j: nat): nat
    requires j <= k < |matchings|
    decreases k, 0, j
  {
    if j == 0 then 0
    else
      Contributions(matchings, k, j - 1)
      + (if k <= (j - 1) + matchings[j - 1] then Copies(matchings, j - 1) else 0)
  }

  function Min(a: nat, b: nat): nat {
    if a < b then a else b
  }

  /** After `i` cards, card `k` holds its original plus what the processed
      cards before it contributed. */
  lemma {:induction false} RunContributions(matchings: seq<nat>, i: nat, k: nat)
    requires i <= |matchings| && k < |matchings|
    ensures Run(matchings, i)[k] == 1 + Contributions(matchings, k, Min(i, k))
  {
    if i > 0 {
      RunContributions(matchings, i - 1, k);
      if i - 1 < k {
        RunContributions(matchings, i - 1, i - 1);
      }
    }
  }

  /** Once every card is processed, each entry is the card's number of
      copies. */
  lemma RunIsCopies(matchings: seq<nat>, k: nat)
    requires k < |matchings|
    ensures Run(matchings, |matchings|)[k] == Copies(matchings, k)
  {
    RunContributions(matchings, |matchings|, k);
  }

  function AllCopies(matchings: seq<nat>): (r: seq<nat>)
    ensures |r| == |matchings|
  {
    seq(|matchings|, k requires 0 <= k < |matchings| => Copies(matchings, k))
  }

  lemma RunIsAllCopies(matchings: seq<nat>)
    ensures Run(matchings, |matchings|) == AllCopies(matchings)
  {
    forall k | 0 <= k < |matchings| ensures Run(matchings, |matchings|)[k] == AllCopies(matchings)[k] {
      RunIsCopies(matchings, k);
    }
  }

  lemma {:induction false} SumAtLeastOne(s: seq<nat>)
    requires forall i :: 0 <= i < |s| ==> s[i] >= 1
    ensures Sum(s) >= |s|
  {
    if s != [] {
      SumAtLeastOne(s[1..]);
    }
  }

  /** The inner `for_each` of `exercise2`: card `index` adds its copies to
      each of the next `count` cards, in place. */
  method AddCopiesInPlace(num: array<nat>, index: nat, count: nat)
    requires index + count < num.Length
    modifies num
    ensures num[..] == AddCopies(old(num[..]), index + 1, index + count + 1, old(num[index]))
  {
    ghost var before := num[..];
    for card := index + 1 to index + count + 1
      invariant num[index] == before[index]
      invariant num[..] == AddCopies(before, index + 1, card, before[index])
    {
      num[card] := num[card] + num[index];
    }
  }

  /** One step of the outer `for_each`: processing card `index` takes the
      vector from `Run(matchings, index)` to `Run(matchings, index + 1)`. */
  method ProcessCard(num: array<nat>, matchings: seq<nat>, index: nat)
    requires index < |matchings| == num.Length && index + matchings[index] < num.Length
    requires num[..] == Run(matchings, index)
    modifies num
    ensures num[..] == Run(matchings, index + 1)
  {
    AddCopiesInPlace(num, index, matchings[index]);
  }

  /** `num_cards.iter().sum()`. */
  method SumArray(num: array<nat>) returns (total: nat)
    ensures total == Sum(num[..])
  {
    total := 0;
    for i := 0 to num.Length
      invariant total == Sum(num[..i])
    {
      assert num[..i + 1] == num[..i] + [num[i]];
      SumAppend(num[..i], [num[i]]);
      total := total + num[i];
    }
    assert num[..num.Length] == num[..];
  }

  /** `exercise2`'s loops over the `num_cards` vector, updated in place: the
      total is the sum of every card's copies, so at least one per card. */
  method CountCards(matchings: seq<nat>) returns (total: nat)
    requires InRange(matchings)
    ensures total == Sum(AllCopies(matchings))
    ensures total >= |matchings|
  {
    var n := |matchings|;
    var num := new nat[n](_ => 1);
    assert num[..] == Run(matchings, 0);
    for index := 0 to n
      invariant num[..] == Run(matchings, index)
    {
      ProcessCard(num, matchings, index);
    }
    RunIsAllCopies(matchings);
    total := SumArray(num);
    SumAtLeastOne(AllCopies(matchings));
  }

  function MatchesOf(cards: seq<Card>): (r: seq<nat>)
    ensures |r| == |cards| && forall i :: 0 <= i < |cards| ==> r[i] == Matches(cards[i])
  {
    if cards == [] then [] else [Matches(cards[0])] + MatchesOf(cards[1..])
  }

  /** `exercise2::compute`. `None` where it panics: a line that does not
      parse, or a card that wins copies past the last card. */
  method Compute2(lines: seq<string>) returns (r: Option<nat>)
    ensures r.Some? <==> ParseLines(lines).Some? && InRange(MatchesOf(ParseLines(lines).value))
    ensures r.Some? ==> r.value == Sum(AllCopies(MatchesOf(ParseLines(lines).value))) && r.value >= |lines|
  {
    var cards := ParseLines(lines);
    if cards.None? {
      return None;
    }
    var matchings := MatchesOf(cards.value);
    if !InRange(matchings) {
      return None;
    }
    var total := CountCards(matchings);
    return Some(total);
  }

  // ------------------------------------------------------------- examples

  /** Cards with 4, 2, 2, 1, 0 and 0 matches end with 1, 2, 4, 8, 14 and 1
      copies, 30 cards in all. */
  lemma ExampleCopies()
    ensures AllCopies([4, 2, 2, 1, 0, 0]) == [1, 2, 4, 8, 14, 1]
    ensures Sum(AllCopies([4, 2, 2, 1, 0, 0])) == 30
  {
    var m: seq<nat> := [4, 2, 2, 1, 0, 0];
    assert Copies(m, 0) == 1;
    assert Copies(m, 1) == 2;
    assert Copies(m, 2) == 4;
    assert Copies(m, 3) == 8;
    assert Contributions(m, 4, 4) == 13;
    assert Copies(m, 4) == 14;
    assert Copies(m, 5) == 1;
    assert AllCopies(m) == [1, 2, 4, 8, 14, 1];
  }
}
