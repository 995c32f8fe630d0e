# Advent of Code 2023 solutions, modelled in Dafny

This project models the core of a Rust workspace of Advent of Code 2023 solutions, one crate per
puzzle day, and proves properties of that model. It covers days 1, 2, 3, 4, 5, 7, 8, 9, 10, 11
and 12. Each day is one Dafny module in its own file (`day01.dfy` … `day12.dfy`). Three shared
modules support them:

- `wrappers.dfy` holds `Option` and `Result`.
- `strings.dfy` (module `Strings`) models the standard-library text operations the solutions use:
  `split`, `split_whitespace`, `str::parse::<u32>` and `char::to_digit`, plus their inverses for
  round-trip proofs.
- `collections.dfy` (module `Collections`) holds sums, sortedness, sums over a `HashMap`'s values
  in any order, and parsing each piece of a split line.

Conventions used throughout:

- **Panics.** Where the Rust code panics (an `unwrap()`, an index past the end, a character
  outside the puzzle's alphabet), the model mostly returns `None` or `Err`. Some panics are
  stated as preconditions instead; "## Left out" lists them. The doc comment of each operation
  says which of the two it does.
- **Input.** Input files become the sequence of their lines. `common::load_aoc_input` is not
  part of this model.
- **Integers.** Integers are unbounded. The `u32`/`usize`/`i32` widths are modelled only where
  the code depends on them, for example when `parse::<u32>` rejects large numbers.
- **Pure code** (parsers, classification, the difference rows of day 9) becomes datatypes,
  recursive functions and lemmas.
- **Imperative code** becomes methods with loop invariants, proved against a specification
  function. This covers loops that update counters, the in-place card-copy array of day 4, the
  sort of day 5, the critter and the scan of day 10, the offsets of day 11 and the work queue
  of day 12.
- **Objects whose fields change** become classes: the critter of day 10 and the `GhostZeroes`
  iterator of day 8.

## Model

| member | source | states |
|---|---|---|
| Day1Trebuchet.FindFirstNum | rust/day_1/src/main.rs:18-20 | `None` exactly when no character is in `'0'..='9'`; otherwise a value below 10 |
| Day1Trebuchet.FindFirstNumAt | rust/day_1/src/main.rs:18-20 | the value found is the digit value of the first digit of the line |
| Day1Trebuchet.FirstDigitExists | rust/day_1/src/main.rs:18-20 | a line that has a digit has a first one, so `find` stops |
| Day1Trebuchet.FirstDigitUnique | rust/day_1/src/main.rs:18-20 | at most one position is the first digit |
| Collections.Reverse | rust/day_1/src/main.rs:12 | `chars().rev()`: same length, position `i` holds the element at `n - 1 - i` |
| Day1Trebuchet.ReverseHasDigit | rust/day_1/src/main.rs:12 | reversing keeps whether the line has a digit |
| Day1Trebuchet.ExtractFirstNum | rust/day_1/src/main.rs:7-9 | `Err("No number")` exactly when the line has no digit |
| Day1Trebuchet.FirstNumAt | rust/day_1/src/main.rs:7-9 | `Ok` of the first digit's value |
| Day1Trebuchet.ExtractLastNum | rust/day_1/src/main.rs:11-13 | `Err("No number")` exactly when the line has no digit |
| Day1Trebuchet.LastNumAt | rust/day_1/src/main.rs:11-13 | `Ok` of the last digit's value: the scan of the reversed line finds the last digit |
| Day1Trebuchet.SingleDigit | rust/day_1/src/main.rs:7-13 | on a line with exactly one digit, first and last number agree |
| Day1Trebuchet.Calibration | rust/day_1/src/main.rs:32 | `None` (the `unwrap()` panic) exactly when the line has no digit; the value is below 100 |
| Day1Trebuchet.CalibrationAt | rust/day_1/src/main.rs:32 | ten times the first digit plus the last digit |
| Day1Trebuchet.Compute | rust/day_1/src/main.rs:29-33 | `Some` exactly when every line has a digit; the sum is below 100 per line |
| Day1Trebuchet.ComputeCons | rust/day_1/src/main.rs:29-33 | the total of two lines is the sum of their calibration values |
| Day1Trebuchet.ExampleFirst | rust/day_1/src/main.rs:46-50 | first numbers of "1234" and "aaa1assaa" are 1 and 1 |
| Day1Trebuchet.ExampleLast | rust/day_1/src/main.rs:53-57 | last numbers of "1234" and "aaa1assaa" are 4 and 1 |
| Day1Trebuchet.ExampleNone | rust/day_1/src/main.rs:7-9 | "abc" has no number, and a file with that line panics |
| Day1Trebuchet.ExampleCalibrations | rust/day_1/src/main.rs:32 | "1234" calibrates to 14, "aaa1assaa" to 11 |
| Day1Trebuchet.ExampleCompute | rust/day_1/src/main.rs:29-33 | the two test lines sum to 25 |
| Day2Cubes.ParseHand | rust/day_2/src/main.rs:12-30 | the `for` loop with three counters computes `HandOf`: each colour ends at its last segment's count, `None` where an `unwrap()` panics |
| Day2Cubes.ApplyAllSucceeds | rust/day_2/src/main.rs:16-27 | the loop gets through exactly when every segment has fewer than two words, an unknown colour, or a count that parses as `u32` |
| Day2Cubes.ApplyColour | rust/day_2/src/main.rs:21-26 | one segment sets the colour it names to its count and leaves the other colours alone |
| Day2Cubes.ApplyAllColour | rust/day_2/src/main.rs:16-27 | after the loop each colour holds the count of the last segment naming it, or its starting value |
| Day2Cubes.HandOfByColour | rust/day_2/src/main.rs:12-30 | each colour of the parsed hand is the last count given for it, 0 when none is |
| Day2Cubes.LastCountAppend | rust/day_2/src/main.rs:16-27 | a later count overrides an earlier one |
| Day2Cubes.SegmentWordsOf | rust/day_2/src/main.rs:17 | a `"N colour"` segment splits into the count and the colour |
| Day2Cubes.NoCharSegment | rust/day_2/src/main.rs:16-17 | a formatted segment contains no separator character |
| Day2Cubes.NoCharFormatHand | rust/day_2/src/main.rs:16 | a formatted hand contains no `;` or `:` |
| Day2Cubes.ApplySegment | rust/day_2/src/main.rs:21-24 | reading a formatted segment sets exactly its colour |
| Day2Cubes.HandOfFormat | rust/day_2/src/main.rs:12-30 | `Hand::parse` reads back a formatted hand with counts below 2^32 |
| Day2Cubes.FormatHands | rust/day_2/src/main.rs:52 | one formatted text per hand, in order |
| Day2Cubes.ParseGameFormat | rust/day_2/src/main.rs:48-54 | `Game::parse` reads back a formatted game: its id and its hands in order |
| Day2Cubes.TitleSplit | rust/day_2/src/main.rs:49 | a formatted line splits at `": "` into the title and the hands |
| Day2Cubes.TitleWords | rust/day_2/src/main.rs:50 | the title splits into `"Game"` and the id |
| Day2Cubes.ParseHandsFormat | rust/day_2/src/main.rs:52 | the `"; "`-joined hands split and parse back to the same hands |
| Day2Cubes.FormatHandsNoSemicolon | rust/day_2/src/main.rs:52 | no formatted hand contains `;` |
| Day2Cubes.FormatHandsParse | rust/day_2/src/main.rs:52 | each formatted hand parses back to itself |
| Day2Cubes.ParseGameOfParts | rust/day_2/src/main.rs:48-54 | a line whose pieces parse gives the game of those parts |
| Day2Cubes.ParseHands | rust/day_2/src/main.rs:52 | `Some` exactly when every piece parses; one hand per piece, in order |
| Day2Cubes.ParseGame | rust/day_2/src/main.rs:48-54 | a parsed id is below 2^32 |
| Day2Cubes.ParseGames | rust/day_2/src/main.rs:132-133 | `Some` exactly when every line parses; one game per line, in order |
| Collections.ParseEach | rust/day_2/src/main.rs:52 | `map(...).collect()`: `Some` exactly when every piece parses, one result per piece, in order |
| Day2Cubes.MaxHand | rust/day_2/src/main.rs:60-66 | every hand validates against the max hand, and each component is 0 or some hand's |
| Day2Cubes.ValidateByMaxHand | rust/day_2/src/main.rs:56-66 | a game is possible with a bag exactly when its max hand is |
| Day2Cubes.PowerIsLeast | rust/day_2/src/main.rs:36-38 | the max hand's power is at most the product of any bag that makes the game possible |
| Day2Cubes.PossibleIdsMonotone | rust/day_2/src/main.rs:132-136 | a bigger bag makes at least the same games possible, so the id sum does not drop |
| Day2Cubes.Compute1 | rust/day_2/src/main.rs:126-137 | `Some` exactly when every line parses (otherwise the `unwrap()` panics) |
| Day2Cubes.Compute2 | rust/day_2/src/main.rs:154-159 | `Some` exactly when every line parses |
| Day2Cubes.PowersAreLeast | rust/day_2/src/main.rs:154-159 | part two is at most the sum of the powers of any bags that make each game possible |
| Day2Cubes.ExampleBadHand | rust/day_2/src/main.rs:77 | `"bad"` parses to zeros |
| Day2Cubes.ExampleGame | rust/day_2/src/main.rs:107-117 | the test game is possible with 14/7/3, not with 13/7/3, and its max hand is 14/7/3 |
| Day3Schematic.Num | rust/day_3/src/main.rs:29-34 | `Some` exactly for a `Number` |
| Day3Schematic.DigitRun | rust/day_3/src/main.rs:13 | the `\d+` alternative: the maximal run of digits from a position, ending at the line's end or at a non-digit |
| Day3Schematic.ItemAt | rust/day_3/src/main.rs:56-61 | the item sits at the match start on line `ln`; a digit run whose value fits in `u32` is a `Number` of that length and value, any other match a `Marker` of its first character |
| Day3Schematic.MatchLength | rust/day_3/src/main.rs:13 | every match is at least one character long and inside the line |
| Day3Schematic.ScanFromSound | rust/day_3/src/main.rs:54-62 | `find_iter` yields only items of match starts, at increasing positions |
| Day3Schematic.InsideMatch | rust/day_3/src/main.rs:13 | no match starts inside another match |
| Day3Schematic.ScanFromComplete | rust/day_3/src/main.rs:54-62 | `find_iter` yields an item for every match start |
| Day3Schematic.ToMapKeys | rust/day_3/src/main.rs:63 | collecting items with distinct positions: the keys are exactly their positions, each mapped to its item |
| Day3Schematic.LineScanKeys | rust/day_3/src/main.rs:53-64 | the scan of a line has distinct keys, and its map holds each scanned item under its position |
| Day3Schematic.LineItemsSound | rust/day_3/src/main.rs:53-64 | every key of `parse_line` is a match start on that line, holding that match's item |
| Day3Schematic.LineItemsComplete | rust/day_3/src/main.rs:53-64 | every match start on the line is a key of `parse_line` |
| Day3Schematic.LineItemsAreMatches | rust/day_3/src/main.rs:53-64 | `parse_line`'s keys are exactly the match starts, each holding its match's item |
| Day3Schematic.ItemsOfAreMatches | rust/day_3/src/main.rs:43-51 | after `n` lines every key is a match start of one of them, holding its item |
| Day3Schematic.ItemsOfComplete | rust/day_3/src/main.rs:43-51 | after `n` lines every match start of those lines is a key |
| Day3Schematic.SchematicIsMatches | rust/day_3/src/main.rs:43-51 | the parsed map is keyed by item positions and holds exactly one item per match start |
| Day3Schematic.Parse | rust/day_3/src/main.rs:43-51 | the loop extending the map line by line builds the schematic of all lines |
| Day3Schematic.BoxCells | rust/day_3/src/main.rs:90 | `(-1..=len).cartesian_product(-1..=1)` covers exactly the cells from one left to `len` right and one above to one below |
| Day3Schematic.KeepCellsKeeps | rust/day_3/src/main.rs:91-100 | a cell is kept exactly when both coordinates are non-negative and it is not one of the item's own cells |
| Day3Schematic.LookupFinds | rust/day_3/src/main.rs:103 | the items found are exactly the items keyed at some listed cell |
| Day3Schematic.NeighboursInBox | rust/day_3/src/main.rs:89-104 | the neighbours are exactly the items keyed in the box around the item, minus its own cells |
| Day3Schematic.BoxDistinct | rust/day_3/src/main.rs:90 | the cartesian product lists no cell twice |
| Day3Schematic.KeepCellsDistinct | rust/day_3/src/main.rs:91-100 | filtering keeps the cells distinct |
| Day3Schematic.LookupDistinct | rust/day_3/src/main.rs:103 | in a map where each item is keyed by its own position, distinct cells give distinct items |
| Day3Schematic.NeighboursDistinct | rust/day_3/src/main.rs:89-104 | no item is a neighbour twice |
| Day3Schematic.PartNumbersTouchMarkers | rust/day_3/src/main.rs:66-83 | a part number is exactly a number of the map with a marker keyed in its box |
| Day3Schematic.SortedValues | rust/day_3/src/main.rs:86 | the values, visited in any order, come out sorted, as a permutation of the numbers' values and with their sum |
| Day3Schematic.TakeValue | rust/day_3/src/main.rs:86 | inserting one more value into the sorted list keeps the multiset and the sum of the values still to place |
| Day3Schematic.PartNumberValues | rust/day_3/src/main.rs:85-87 | the part numbers' values, sorted, as a permutation, and with their sum |
| Day3Schematic.Compute1 | rust/day_3/src/main.rs:209-214 | the sum of the values of all part numbers |
| Day3Schematic.AdjacentInBox | rust/day_3/src/main.rs:112-114 | a number touches the `*` at `k` exactly when that marker is keyed in the number's box |
| Day3Schematic.GetGears | rust/day_3/src/main.rs:106-126 | the keys are exactly the `*` markers touched by a number; each holds each touching number once |
| Day3Schematic.AddGears | rust/day_3/src/main.rs:112-119 | pushing one number onto the entry of every `*` it touches keeps the result collected for one more number |
| Day3Schematic.PushGear | rust/day_3/src/main.rs:113-118 | one neighbour: a `*` marker gets the number pushed onto its entry (created if missing); anything else changes nothing |
| Day3Schematic.PartlyStep | rust/day_3/src/main.rs:113-118 | one more neighbour adds the number to the gear at `k` exactly when that neighbour is the `*` at `k` |
| Day3Schematic.RatioOfPair | rust/day_3/src/main.rs:238-243 | for a list of distinct numbers, the product of both when there are two, else nothing, equals the ratio of its set |
| Day3Schematic.GearRatios | rust/day_3/src/main.rs:235-244 | the collected keys are the touched `*` markers; each entry's product is that gear's ratio |
| Day3Schematic.SumGears | rust/day_3/src/main.rs:235-245 | summing the entries in any order gives the sum of the gears' ratios |
| Day3Schematic.Compute2 | rust/day_3/src/main.rs:231-246 | the sum over touched `*` markers of the product of their numbers where there are exactly two |
| Day3Schematic.ExampleLine | rust/day_3/src/main.rs:137-143 | `parse_line(1, ".....+.58.")` is the marker `+` at 5 and the number 58 of length 2 at 7 |
| Day4Scratchcards.ParseAll | rust/day_4/src/main.rs:13 | `Some` exactly when every word parses as a `u32`; then the values in order, one per word |
| Day4Scratchcards.Numbers | rust/day_4/src/main.rs:10-15 | `Some` exactly when every whitespace-separated word parses; then the set holds exactly the parsed values |
| Day4Scratchcards.ParseLine | rust/day_4/src/main.rs:6-17 | `Some` only when splitting on `:` and `\|` gives exactly three pieces (title and two halves) |
| Day4Scratchcards.WordsTrailingSpace | rust/day_4/src/main.rs:11-12 | a trailing space does not change the words |
| Day4Scratchcards.NumbersText | rust/day_4/src/main.rs:25 | a number list as a card writes it: one decimal numeral per number |
| Day4Scratchcards.ParseAllText | rust/day_4/src/main.rs:11-14 | the words of space-joined `u32` numerals parse back to the same list |
| Day4Scratchcards.NoSeparator | rust/day_4/src/main.rs:8 | joined numerals contain neither `:` nor `\|` |
| Day4Scratchcards.SplitCard | rust/day_4/src/main.rs:8 | a card line `Card N: ... \| ...` splits into its title and its two number lists |
| Day4Scratchcards.NoSeparatorsPadded | rust/day_4/src/main.rs:8 | padding a number list with separator-free text keeps it separator-free |
| Day4Scratchcards.SplitSeparators | rust/day_4/src/main.rs:8 | three separator-free pieces joined by `:` and `\|` split back into exactly those pieces |
| Day4Scratchcards.SplitAround | rust/day_4/src/main.rs:8 | splitting a separator-free piece, a separator and a rest yields the piece followed by the rest's pieces |
| Day4Scratchcards.ParseLineFormat | rust/day_4/src/main.rs:6-17 | a formatted card line parses back to the sets of its winning and its own numbers |
| Day4Scratchcards.ScoreDoubles | rust/day_4/src/main.rs:41-44 | the score is 0 exactly without a match, 1 for one match, and doubles with every further match |
| Day4Scratchcards.ParseLines | rust/day_4/src/main.rs:38-39 | `Some` exactly when every line parses; then one card per line, in order |
| Day4Scratchcards.Compute1 | rust/day_4/src/main.rs:36-47 | `Some` (no panic) exactly when every line parses |
| Day4Scratchcards.AddCopies | rust/day_4/src/main.rs:77-79 | every index in the range gains the amount, every other entry stays |
| Day4Scratchcards.Run | rust/day_4/src/main.rs:74-80 | the copies table keeps one entry per card after every processed card |
| Day4Scratchcards.RunContributions | rust/day_4/src/main.rs:74-80 | after `i` cards, card `k` holds its original plus what the processed cards before it won |
| Day4Scratchcards.RunIsCopies | rust/day_4/src/main.rs:74-80 | after all cards, each entry is the card's copies by the recurrence over the earlier cards |
| Day4Scratchcards.AllCopies | rust/day_4/src/main.rs:68-80 | one copy count per card |
| Day4Scratchcards.RunIsAllCopies | rust/day_4/src/main.rs:74-80 | the processed table equals the recurrence's copy counts |
| Day4Scratchcards.SumAtLeastOne | rust/day_4/src/main.rs:68 | a table whose entries are at least one sums to at least its length |
| Day4Scratchcards.AddCopiesInPlace | rust/day_4/src/main.rs:77-79 | the inner loop on the array: the next `count` entries gain the copies of card `index`, the rest stay |
| Day4Scratchcards.ProcessCard | rust/day_4/src/main.rs:76-79 | processing card `index` takes the table from the state after `index` cards to the state after `index + 1` |
| Day4Scratchcards.SumArray | rust/day_4/src/main.rs:82 | the sum of the array's entries |
| Day4Scratchcards.CountCards | rust/day_4/src/main.rs:68-82 | the total number of cards is the sum of the recurrence's copies, at least one per card |
| Day4Scratchcards.MatchesOf | rust/day_4/src/main.rs:69-72 | one match count per card, each the size of the intersection |
| Day4Scratchcards.Compute2 | rust/day_4/src/main.rs:66-83 | `Some` exactly when every line parses and no card wins copies past the last card; then the total of the copies, at least the number of cards |
| Day4Scratchcards.ExampleCopies | rust/day_4/src/main.rs:90-93 | cards with 4, 2, 2, 1, 0 and 0 matches end with 1, 2, 4, 8, 14 and 1 copies, 30 in all |
| Day5Mapper.RuleMap | rust/day_5/src/main.rs:42-47 | `Some` exactly when the point lies in the rule's source range; then the target plus the offset |
| Day5Mapper.MapRange | rust/day_5/src/main.rs:53-88 | no point is lost or duplicated; an empty rule or range gives nothing; resolved pieces are non-empty; the remainder is a non-empty suffix above the domain, starting at the domain's end when split off; a domain below the range leaves it for later rules; a domain above it passes it through |
| Day5Mapper.TotalLengthPair | rust/day_5/src/main.rs:65-68 | two pieces hold the sum of their lengths |
| Day5Mapper.MapRangeCoversImage | rust/day_5/src/main.rs:53-88 | every point of the range below the domain's end reappears at its image among the pieces; any other point stays in the remainder |
| Day5Mapper.MapRangePiecesAreImages | rust/day_5/src/main.rs:53-88 | every point of a resolved piece is the image of a point of the range below the domain's end |
| Day5Mapper.FindMap | rust/day_5/src/main.rs:115 | `None` exactly when no rule covers the point; otherwise the image under the first rule that does |
| Day5Mapper.Positive | rust/day_5/src/main.rs:130 | the kept pieces are all non-empty |
| Day5Mapper.MapRangeInMap | rust/day_5/src/main.rs:121-137 | the accumulated pieces are all non-empty |
| Day5Mapper.FoldRulesPositive | rust/day_5/src/main.rs:123-136 | the fold keeps the accumulator free of empty pieces |
| Day5Mapper.FoldRulesStopsWithoutRemainder | rust/day_5/src/main.rs:134 | once the remainder is gone, later rules leave the result unchanged |
| Day5Mapper.FoldRulesAppends | rust/day_5/src/main.rs:128-132 | the fold only appends to the accumulator |
| Day5Mapper.StageOutUnfold | rust/day_5/src/main.rs:123-136 | a map's output is the first rule's non-empty pieces, then the rest of the rules' output for its remainder |
| Day5Mapper.TotalLengthAppend | rust/day_5/src/main.rs:128-132 | concatenating piece lists adds their lengths |
| Day5Mapper.PositiveKeepsPoints | rust/day_5/src/main.rs:130 | dropping empty pieces keeps the total length and every covered point |
| Day5Mapper.CoveredCons | rust/day_5/src/main.rs:349-351 | a point of a list lies in its first piece or in the rest |
| Day5Mapper.CoveredAppend | rust/day_5/src/main.rs:349-351 | a point of a concatenation lies in one of its parts |
| Day5Mapper.BelowFirstRule | rust/day_5/src/main.rs:114-119 | with sorted disjoint rules, a point below the first domain is mapped by no rule |
| Day5Mapper.AboveFirstRule | rust/day_5/src/main.rs:115 | a point at or above the first domain's end is mapped as by the remaining rules |
| Day5Mapper.FirstRuleDecides | rust/day_5/src/main.rs:114-119 | with sorted disjoint rules, a point below the first domain's end maps as the first rule maps it |
| Day5Mapper.ValidRulesTail | rust/day_5/src/main.rs:110 | the rules after the first are still sorted and disjoint |
| Day5Mapper.StageOutLength | rust/day_5/src/main.rs:121-137 | a map's output holds exactly as many points as the range, with no empty piece |
| Day5Mapper.StageOutCoversImage | rust/day_5/src/main.rs:121-137 | every point of the range appears in the map's output at its point image |
| Day5Mapper.StageOutOnlyImages | rust/day_5/src/main.rs:121-137 | every point of the map's output is the point image of some point of the range |
| Day5Mapper.StageOutIsImage | rust/day_5/src/main.rs:114-137 | for sorted disjoint rules, `map_range` with its remainder is exactly the image of the range under `map`: same number of points, no empty piece, and both directions of coverage |
| Day5Mapper.UnitRangeAgreesWithPoint | rust/day_5/src/main.rs:114-137 | the one-point range of `n` comes out as the one-point range of `map(n)` |
| Day5Mapper.OnePiece | rust/day_5/src/main.rs:130 | non-empty pieces holding one point in all are that one point's range |
| Day5Mapper.FirstTwoLengths | rust/day_5/src/main.rs:130 | the first two pieces hold no more than the total |
| Day5Mapper.MapRangesLength | rust/day_5/src/main.rs:348-352 | mapping a collection keeps its number of points and its freedom from empty pieces |
| Day5Mapper.MapRangesCoversImage | rust/day_5/src/main.rs:348-352 | every point of the collection appears at its image |
| Day5Mapper.MapRangesOnlyImages | rust/day_5/src/main.rs:348-352 | every point after mapping is the image of a point of the collection |
| Day5Mapper.MapRangesIsImage | rust/day_5/src/main.rs:348-352 | one map applied to a collection gives exactly the image of its points, with the same number of points |
| Day5Mapper.FoldMapsIsImage | rust/day_5/src/main.rs:378-381 | the fold over all maps covers exactly the end points of the seed points under the point fold, with the same number of points |
| Day5Mapper.MinStart | rust/day_5/src/main.rs:383 | `None` exactly for no ranges; otherwise a least start that is some range's start |
| Day5Mapper.LowestLocationOfRanges | rust/day_5/src/main.rs:378-383 | for disjoint rules and non-empty seed ranges: `None` exactly without seeds, otherwise the least end point of any seed point |
| Day5Mapper.LowestStartIsLowestLocation | rust/day_5/src/main.rs:378-383 | the least start after the fold is the least location of any seed point |
| Day5Mapper.EmptyStaysEmpty | rust/day_5/src/main.rs:378-381 | no ranges stay no ranges |
| Day5Mapper.MinOf | rust/day_5/src/main.rs:319 | `min().unwrap()`: an element no greater than any other |
| Day5Mapper.LowestLocationOfSeeds | rust/day_5/src/main.rs:314-319 | the end point of some seed, no greater than any seed's end point |
| Day5Mapper.Locations | rust/day_5/src/main.rs:314-318 | one end point per seed, the fold of `map` over the maps |
| Day5Mapper.UnitRanges | rust/day_5/src/main.rs:13-15 | each seed as the range of length one at it |
| Day5Mapper.PointsAsUnitRanges | rust/day_5/src/main.rs:297-384 | seeds read as one-point ranges give exercise 2 the answer of exercise 1 |
| Day5Mapper.UnitRangesCover | rust/day_5/src/main.rs:17-19 | the one-point ranges cover exactly the seeds |
| Day5Mapper.SeedOrderIrrelevant | rust/day_5/src/main.rs:365-383 | reordering the seed ranges does not change the answer |
| Day5Mapper.ExampleFirstRule | rust/day_5/src/main.rs:275-288 | the test map's first sorted rule splits `[40, 140)` into `[40, 50)`, `[52, 100)` and the remainder `[98, 140)` |
| Day5Mapper.ExampleSecondRule | rust/day_5/src/main.rs:275-288 | the second rule completes the test's expected pieces and remainder `[100, 140)` |
| Day5Mapper.ExampleMapPoints | rust/day_5/src/main.rs:259-272 | the example map sends 49 to 49, 50 to 52, 51 to 53, 96 to 98, 97 to 99, 98 to 50, 99 to 51 and 100 to 100, as the test expects |
| Day5Mapper.PositiveOfPositive | rust/day_5/src/main.rs:130 | filtering a list without empty pieces changes nothing |
| Day5Mapper.NumeralHasNoSpace | rust/day_5/src/main.rs:33 | a numeral is a non-empty word without spaces |
| Day5Mapper.ParseFormatRule | rust/day_5/src/main.rs:31-40 | a rule written as `target source length` parses back to itself |
| Day5Mapper.BlankFrom | rust/day_5/src/main.rs:106 | the first empty line at or after a position, or the end |
| Day5Mapper.NextBlock | rust/day_5/src/main.rs:101-108 | the next block starts after the header |
| Day5Mapper.ParsedRules | rust/day_5/src/main.rs:105-108 | one rule per line of the block |
| Day5Mapper.SortBySource | rust/day_5/src/main.rs:110 | sorting in place gives rules ordered by source, a permutation of the input |
| Day5Mapper.SinkRule | rust/day_5/src/main.rs:110 | one insertion round extends the sorted prefix by one rule and permutes the array |
| Day5Mapper.Swap | rust/day_5/src/main.rs:110 | exchanges two entries and nothing else |
| Day5Mapper.ParseGardenMap | rust/day_5/src/main.rs:98-112 | the map named by the header's first word, holding the block's rules sorted by source; the next block starts after the blank line |
| Day5Mapper.ParseGardenMaps | rust/day_5/src/main.rs:309-312 | one parsed map per block, in file order |
| Day5Mapper.ParsedMapsExtend | rust/day_5/src/main.rs:310-311 | appending the next parsed map keeps every map parsed from its block |
| Day5Mapper.ParseNumbersAllOrNothing | rust/day_5/src/main.rs:304 | parsing succeeds exactly when every word is a number, giving them in order |
| Day5Mapper.SeedPairs | rust/day_5/src/main.rs:363-369 | `chunks(2)`: range `i` starts at number `2i` and has length number `2i + 1` |
| Day5Mapper.MapsStart | rust/day_5/src/main.rs:307 | the maps start after the seed line and the line after it |
| Day5Mapper.Calculate1 | rust/day_5/src/main.rs:297-320 | the almanac's maps, and the lowest location of any seed through them |
| Day5Mapper.Calculate2 | rust/day_5/src/main.rs:354-384 | the almanac's maps and the least start after the fold; for disjoint rules and non-empty seed ranges, that is the lowest location of any seed point |
| Day7Cards.CardValue | rust/day_7/src/main.rs:30-39 | `Some` exactly for the characters `1`-`9`, `T`, `J`, `Q`, `K`, `A`; values at most 14, and 0 exactly for `J` under the joker rule |
| Day7Cards.CardTextOfValue | rust/day_7/src/main.rs:102-112 | the `Debug` text of a parsed card is the character it came from |
| Day7Cards.ParseCardsEach | rust/day_7/src/main.rs:30-40 | the cards parse exactly when every character is a card; then each value is its character's |
| Day7Cards.ParseHand | rust/day_7/src/main.rs:29-42 | a parsed hand has exactly five cards (`try_into` of `[u8; 5]`) |
| Day7Cards.CardsTextOfParse | rust/day_7/src/main.rs:100-117 | writing parsed cards gives back the text they were parsed from |
| Day7Cards.ValuesCard | rust/day_7/src/main.rs:45 | the keys of `counts()` number as many as the distinct values counted along the hand, no more than the cards, and at least one for a non-empty hand |
| Day7Cards.AnyCount | rust/day_7/src/main.rs:50-53 | true exactly when some card's value occurs `k` times |
| Day7Cards.DistinctCountRange | rust/day_7/src/main.rs:47-56 | five cards have one to five distinct values, so the `panic!` arm cannot be reached |
| Day7Cards.Upgrade | rust/day_7/src/main.rs:58-71 | the joker upgrade never lowers the class and raises every class below five of a kind |
| Day7Cards.Classify | rust/day_7/src/main.rs:44-74 | never below the base class; equal to it without the joker rule or without jokers; with jokers, strictly higher unless already five of a kind |
| Day7Cards.DistinctCountFull | rust/day_7/src/main.rs:45-48 | as many distinct values as cards exactly when all cards differ |
| Day7Cards.HighCardIffDistinct | rust/day_7/src/main.rs:48 | high card exactly when no two cards share a value |
| Day7Cards.FiveOfAKindIffSame | rust/day_7/src/main.rs:54 | five of a kind exactly when all cards share one value |
| Day7Cards.SubsetCard | rust/day_7/src/main.rs:45 | a subset of the values has no more elements |
| Day7Cards.BaseClassOfPermutation | rust/day_7/src/main.rs:45-56 | the base class depends only on the multiset of cards |
| Day7Cards.AnyCountOfPermutation | rust/day_7/src/main.rs:50-53 | whether some value occurs `k` times depends only on the multiset of cards |
| Day7Cards.ClassifyOfPermutation | rust/day_7/src/main.rs:44-74 | the class, with or without jokers, depends only on the multiset of cards |
| Day7Cards.LexEqual | rust/day_7/src/main.rs:85 | the lexicographic order of the card arrays is `Equal` exactly for equal arrays |
| Day7Cards.LexReverse | rust/day_7/src/main.rs:85 | swapping the arrays reverses their comparison |
| Day7Cards.LexTransitive | rust/day_7/src/main.rs:85 | the lexicographic `Less` is transitive |
| Day7Cards.CompareEqual | rust/day_7/src/main.rs:84-97 | `Equal` exactly for equal hands |
| Day7Cards.CompareByKey | rust/day_7/src/main.rs:84-97 | the higher class wins; equal classes compare card by card |
| Day7Cards.CompareReverse | rust/day_7/src/main.rs:84-97 | swapping the hands reverses the result |
| Day7Cards.CompareTransitive | rust/day_7/src/main.rs:84-97 | `Less` is transitive, so `cmp` is a total order on hands |
| Day7Cards.AtMostTransitive | rust/day_7/src/main.rs:84-97 | "not greater" is transitive |
| Day7Cards.WithHandCons | rust/day_7/src/main.rs:202 | the entries of a hand in a list with a first entry: that entry if it holds the hand, then the rest's |
| Day7Cards.WithHandNone | rust/day_7/src/main.rs:202 | no entry holds the hand, so none is kept |
| Day7Cards.WithHandSome | rust/day_7/src/main.rs:202 | a hand with kept entries is held by some entry |
| Day7Cards.Insert | rust/day_7/src/main.rs:202 | inserting an entry adds exactly it to the multiset of entries |
| Day7Cards.InsertSorted | rust/day_7/src/main.rs:202 | inserting into a sorted list keeps it sorted |
| Day7Cards.InsertStable | rust/day_7/src/main.rs:202 | insertion keeps every hand's entries in order, the new one last |
| Day7Cards.SortEntries | rust/day_7/src/main.rs:202 | `sorted_by`: a sorted permutation of the entries |
| Day7Cards.SortStable | rust/day_7/src/main.rs:202 | the sort is stable: each hand's entries keep their input order |
| Day7Cards.WithHandAppend | rust/day_7/src/main.rs:202 | the entries of a hand after appending one: the old ones, then it if it holds the hand |
| Day7Cards.WithHandEmpty | rust/day_7/src/main.rs:202 | lists that agree on every hand's entries are both empty or both not |
| Day7Cards.SortedHeads | rust/day_7/src/main.rs:202 | two non-empty sorted lists that agree on every hand's entries start with the same hand |
| Day7Cards.SortedUnique | rust/day_7/src/main.rs:202 | two sorted lists that agree on every hand's entries are equal, so the sorted result is unique |
| Day7Cards.ParseEntry | rust/day_7/src/main.rs:200-201 | a parsed entry holds a hand of five cards |
| Day7Cards.ParseEntries | rust/day_7/src/main.rs:199-201 | `Some` exactly when every line parses; then one entry per line, in order |
| Day7Cards.Compute | rust/day_7/src/main.rs:196-206 | `Some` (no panic) exactly when every line parses |
| Day7Cards.WinningsConcat | rust/day_7/src/main.rs:202-205 | ranks run on across a split of the sorted entries |
| Day7Cards.WinningsAppend | rust/day_7/src/main.rs:202-205 | the last entry's bid is weighted by the last rank |
| Day7Cards.WinningsShift | rust/day_7/src/main.rs:202-205 | raising every rank by one adds each bid once more |
| Day7Cards.ComputeReordered | rust/day_7/src/main.rs:196-206 | reordering the lines while keeping the order of lines with the same hand leaves the total unchanged |
| Day7Cards.FiveDistinct | rust/day_7/src/main.rs:45-47 | the number of distinct values of five cards, written out card by card |
| Day7Cards.ParseCardsCons | rust/day_7/src/main.rs:30-40 | a card in front of parsed cards parses to its value in front |
| Day7Cards.ExampleParseTail | rust/day_7/src/main.rs:128-131 | `TA` parses to 10 and 14 |
| Day7Cards.ExampleParseMiddle | rust/day_7/src/main.rs:128-131 | `23TA` parses to 2, 3, 10 and 14 |
| Day7Cards.ExampleParseCards | rust/day_7/src/main.rs:128-131 | `J23TA` parses with `J` as 11, or as 0 under the joker rule |
| Day7Cards.ExampleParse | rust/day_7/src/main.rs:128-131 | `Hand::parse("J23TA")` with and without the joker rule |
| Day7Cards.ExampleHighCard | rust/day_7/src/main.rs:135 | `12345` is a high card |
| Day7Cards.ExampleOnePair | rust/day_7/src/main.rs:136 | `12343` is one pair |
| Day7Cards.ExampleThreeOfAKind | rust/day_7/src/main.rs:137 | `1J2JJ` without jokers is three of a kind |
| Day7Cards.ExampleFourOfAKind | rust/day_7/src/main.rs:138 | `AA3AA` is four of a kind |
| Day7Cards.ExampleFiveOfAKind | rust/day_7/src/main.rs:139 | `KKKKK` is five of a kind |
| Day7Cards.ExampleFullHouse | rust/day_7/src/main.rs:140 | `KKKQQ` is a full house |
| Day7Cards.ExampleTwoPair | rust/day_7/src/main.rs:147 | `42343` under the joker rule is two pair |
| Day7Cards.ExampleJokerOnePair | rust/day_7/src/main.rs:156 | `1234J` with a joker is one pair |
| Day7Cards.ExampleJokerThreeOfAKind | rust/day_7/src/main.rs:158 | `J2343` with a joker is three of a kind |
| Day7Cards.ExampleJokerFullHouse | rust/day_7/src/main.rs:161 | `4J343` with a joker is a full house |
| Day7Cards.ExampleJokerFourOfAKind | rust/day_7/src/main.rs:162 | `J23J3` with two jokers is four of a kind |
| Day7Cards.ExampleJokersFourOfAKind | rust/day_7/src/main.rs:165 | `1J2JJ` with three jokers is four of a kind |
| Day7Cards.ExampleJokerFiveOfAKind | rust/day_7/src/main.rs:170 | `JJJJJ` is five of a kind |
| Day7Cards.ExampleJokersFiveOfAKind | rust/day_7/src/main.rs:172 | `JJJTT` is five of a kind |
| Day7Cards.ExampleFourThrees | rust/day_7/src/main.rs:180 | `33332` is four of a kind |
| Day7Cards.ExampleFourAces | rust/day_7/src/main.rs:180 | `2AAAA` is four of a kind |
| Day7Cards.ExampleThreeEights | rust/day_7/src/main.rs:182 | `77888` is a full house |
| Day7Cards.ExampleThreeSevens | rust/day_7/src/main.rs:182 | `77788` is a full house |
| Day7Cards.ExampleOrderingByCards | rust/day_7/src/main.rs:180 | `33332` beats `2AAAA`: equal classes, the first card decides |
| Day7Cards.ExampleOrderingLater | rust/day_7/src/main.rs:182 | `77888` beats `77788`: the third card decides |
| Day7Cards.ExampleOrderingEqual | rust/day_7/src/main.rs:184 | `A7A8A` equals itself |
| Day8Network.NonEmptyKeeps | rust/day_8/src/main.rs:63 | the kept tokens are non-empty pieces of the split |
| Day8Network.ParseNodeLabels | rust/day_8/src/main.rs:61-67 | a parsed node's id, left and right are non-empty tokens without separators |
| Day8Network.FormatNodeShape | rust/day_8/src/main.rs:101 | the line `AAA = (BBB, CCC)` as pieces and single separators |
| Day8Network.SplitFormatNode | rust/day_8/src/main.rs:62 | splitting a node line on `=`, space, `(`, `,` and `)` gives the id, left and right between empty pieces |
| Day8Network.NonEmptyPieces | rust/day_8/src/main.rs:63 | dropping the empty pieces leaves exactly the id, left and right |
| Day8Network.ParseFormatNode | rust/day_8/src/main.rs:61-67 | parsing a written node line gives the node back |
| Day8Network.ParseNodes | rust/day_8/src/main.rs:76-79 | `Some` exactly when every line parses; then one node per line, in order |
| Day8Network.Collect | rust/day_8/src/main.rs:76-79 | every key holds a node with that id |
| Day8Network.CollectKeys | rust/day_8/src/main.rs:76-79 | the keys are exactly the ids of the nodes |
| Day8Network.CollectLast | rust/day_8/src/main.rs:76-79 | each key holds the last node with that id, as `collect()` into a `HashMap` keeps |
| Day8Network.LoadMap | rust/day_8/src/main.rs:71-82 | `Some` exactly when there is a first line and every line after the second parses; the instructions are the first line, and every key holds a node with that id |
| Day8Network.FormatLines | rust/day_8/src/main.rs:101 | one written line per node |
| Day8Network.ParseFormatLines | rust/day_8/src/main.rs:76-79 | parsing the written lines gives the nodes back |
| Day8Network.LoadFormatted | rust/day_8/src/main.rs:71-82 | loading an instruction line, a blank line and written nodes gives the instructions and the collected nodes |
| Day8Network.Instruction | rust/day_8/src/main.rs:46-47 | the instruction read at a step is one of the instructions, which repeat |
| Day8Network.Step | rust/day_8/src/main.rs:45-57 | `Some` exactly when there are instructions and the instruction is `R` or `L` with that neighbour in the map; then that neighbour's node |
| Day8Network.ClosedStep | rust/day_8/src/main.rs:45-57 | in a closed network a step from a node of the map succeeds and lands on a node of the map |
| Day8Network.SearchFindsFirst | rust/day_8/src/main.rs:148 | the count found is at least one, the walk of that many steps ends on `ZZZ`, and no shorter walk does |
| Day8Network.Journey.constructor | rust/day_8/src/main.rs:84-86 | the journey starts at the start node, at step 0 |
| Day8Network.Journey.Pos | rust/day_8/src/main.rs:35-40 | the position in the instruction cycle indexes the instruction of the current step; the node id is the current node's |
| Day8Network.Journey.Next | rust/day_8/src/main.rs:45-57 | the journey moves to the step's node, counts one more step and yields that node |
| Day8Network.Compute1 | rust/day_8/src/main.rs:144-149 | the number of steps from `AAA` to the first `ZZZ` |
| Day8Network.SearchNext | rust/day_8/src/main.rs:148 | a search that does not stop at the next node counts one more than the search from it |
| Day8Network.StepsToZ | rust/day_8/src/main.rs:148 | the loop over the journey counts the steps to the first `ZZZ`, matching the search |
| Day8Network.GhostStart | rust/day_8/src/main.rs:88-90 | each id that ends in `A` exactly once, and nothing else |
| Day8Network.GhostZeroes.constructor | rust/day_8/src/main.rs:214-216 | starts at position 0 and entry 0; valid when the loop goes back before the last entry |
| Day8Network.GhostZeroes.Valid | rust/day_8/src/main.rs:221-226 | a valid iterator has a next entry, so the index of `next` stays in range |
| Day8Network.GhostZeroes.Next | rust/day_8/src/main.rs:221-230 | adds the next entry's step count, wraps to the loop-back entry after the last, yields the new position, and stays valid |
| Day8Network.ExampleCollect | rust/day_8/src/main.rs:105-116 | the nodes of the second example, collected |
| Day8Network.ExampleSteps | rust/day_8/src/main.rs:157-158 | on the second example `ZZZ` is reached after six steps |
| Day9Mirage.Diffs | rust/day_9/src/main.rs:8-10 | `transform` yields one value fewer than the history, none for an empty one |
| Day9Mirage.DiffsFrom | rust/day_9/src/main.rs:9 | the windows from index `k` on: one per neighbouring pair left |
| Day9Mirage.DiffsFromAt | rust/day_9/src/main.rs:9 | window `i` from `k` is the difference of the values at `k + i + 1` and `k + i` |
| Day9Mirage.DiffsAt | rust/day_9/src/main.rs:8-10 | difference `i` is `h[i + 1] - h[i]` |
| Day9Mirage.ExtrapolateFront | rust/day_9/src/main.rs:12-23 | the loop of `extrapolate_front` computes the recursive forward prediction, `None` where `last().unwrap()` panics |
| Day9Mirage.ExtrapolateBack | rust/day_9/src/main.rs:25-38 | the loop with the alternating sign computes the recursive backward prediction, `None` where indexing or `first().unwrap()` panics |
| Day9Mirage.Neg | rust/day_9/src/main.rs:27-31 | same length, every value negated |
| Day9Mirage.DiffsReverse | rust/day_9/src/main.rs:8-10 | the differences of the reversed history are the reversed differences, negated |
| Day9Mirage.DiffsNeg | rust/day_9/src/main.rs:8-10 | the differences of the negated history are the negated differences |
| Day9Mirage.AllZeroNegReverse | rust/day_9/src/main.rs:18 | negating or reversing a row keeps whether it is all zero |
| Day9Mirage.FrontNeg | rust/day_9/src/main.rs:12-23 | predicting a negated history gives the negated prediction |
| Day9Mirage.BackIsFrontOfReverse | rust/day_9/src/main.rs:12-38 | extrapolating backwards, with its alternating sign, equals extrapolating the reversed history forwards, panics included |
| Day9Mirage.Constant | rust/day_9/src/main.rs:12-38 | a constant history of at least two values predicts the same constant both ways |
| Day9Mirage.Linear | rust/day_9/src/main.rs:12-38 | an arithmetic progression of at least three values predicts its next and its previous term |
| Day9Mirage.LinearSteps | rust/day_9/src/main.rs:12-38 | a history with constant differences `b` predicts one step of `b` beyond either end |
| Day9Mirage.DiffsOfProgression | rust/day_9/src/main.rs:8-10 | the differences of an arithmetic progression are its step |
| Day9Mirage.ParseI32 | rust/day_9/src/main.rs:44 | `parse::<i32>()` succeeds only inside the `i32` range, with the integer's value |
| Day9Mirage.ParseHistory | rust/day_9/src/main.rs:44 | `Some` exactly when every word parses; then one value per word, in order |
| Day9Mirage.LineValue | rust/day_9/src/main.rs:42-51 | `Some` exactly when the line parses and the extrapolation in the chosen direction succeeds; then that prediction |
| Day9Mirage.Calculate | rust/day_9/src/main.rs:40-53 | `Some` exactly when every line has a value; then the first line's value plus the rest's sum |
| Day9Mirage.ExampleTransform | rust/day_9/src/main.rs:66-68 | `transform` of 10 13 16 21 30 45 68 is 3 3 5 9 15 23 |
| Day9Mirage.ExampleRows | rust/day_9/src/main.rs:71-78 | the difference rows of 10 13 16 21 30 45 down to the zero row |
| Day9Mirage.ExampleFront | rust/day_9/src/main.rs:71-73 | 10 13 16 21 30 45 predicts 68 |
| Day9Mirage.ExampleBack | rust/day_9/src/main.rs:77 | 10 13 16 21 30 45 extrapolates back to 5 |
| Day9Mirage.ExampleBackTriangular | rust/day_9/src/main.rs:78 | 1 3 6 10 15 21 extrapolates back to 0 |
| Day9Mirage.TriangularRow | rust/day_9/src/main.rs:78 | the difference row of 1 3 6 10 15 21 is 2 3 4 5 6 |
| Day10Pipes.FromChar | rust/day_10/src/main.rs:32-44 | `Some` exactly for `.`, `\|`, `-`, `L`, `J`, `7`, `F`, `S`; then the tile whose character it is |
| Day10Pipes.FromCharOfNodeChar | rust/day_10/src/main.rs:32-44 | every tile is read back from its character |
| Day10Pipes.Turn | rust/day_10/src/main.rs:121-182 | a critter can enter exactly the start tile or a pipe open towards it; it crosses the start straight and leaves a pipe through its other end |
| Day10Pipes.Get | rust/day_10/src/main.rs:106-108 | `None` exactly outside the rows or outside the row; otherwise the tile there |
| Day10Pipes.NextPosition | rust/day_10/src/main.rs:110-183 | "off the map" exactly when stepping west from column 0 or north from row 0; a success moves one cell in the direction onto a tile it may enter, leaving as `Turn` says; every such enterable cell succeeds |
| Day10Pipes.GridRow | rust/day_10/src/main.rs:90-99 | one tile per character, each read from its character |
| Day10Pipes.Grid | rust/day_10/src/main.rs:88-100 | one row per line |
| Day10Pipes.StartAfterIsLast | rust/day_10/src/main.rs:92-96 | after the cells before (x, y), `start_point` is (0, 0) or the last `S` among them |
| Day10Pipes.LastStartIsLastS | rust/day_10/src/main.rs:86-104 | `start_point` is the last `S` in row-major order, or (0, 0) when there is none |
| Day10Pipes.ParseMap | rust/day_10/src/main.rs:86-104 | the nested loops build the grid of the lines and the last `S` as the start |
| Day10Pipes.Critter.constructor | rust/day_10/src/main.rs:73-75 | a critter at the position, heading the direction |
| Day10Pipes.MoveCritter | rust/day_10/src/main.rs:197-209 | on success the critter takes the next position and direction; on error it is left alone and the error is returned |
| Day10Pipes.ExtendNothing | rust/day_10/src/main.rs:216 | visiting nothing first leaves a walk unchanged |
| Day10Pipes.ExtendTwice | rust/day_10/src/main.rs:216 | visiting two sets in turn is visiting their union |
| Day10Pipes.AroundEndsAtStart | rust/day_10/src/main.rs:211-227 | a completed walk ends on the start tile, has visited it, and visited only cells of the map |
| Day10Pipes.MoveCritterAround | rust/day_10/src/main.rs:211-227 | the loop returns the walk's visited set or error and leaves the critter where the walk ends |
| Day10Pipes.OpenFrom | rust/day_10/src/main.rs:188-192 | the kept directions are exactly those of the list in which the start can be left |
| Day10Pipes.OpenFromKeepsOrder | rust/day_10/src/main.rs:188-192 | filtering keeps the compass order |
| Day10Pipes.ConsInCompassOrder | rust/day_10/src/main.rs:188 | a direction before all of a compass-ordered list keeps it in order |
| Day10Pipes.StartDirectionsInOrder | rust/day_10/src/main.rs:185-195 | the start directions are exactly those in which the start can be left, in the order East, South, West, North |
| Day10Pipes.StartedPush | rust/day_10/src/main.rs:190 | pushing a new critter at the start keeps the list distinct critters at the start, one per direction |
| Day10Pipes.StartCritters | rust/day_10/src/main.rs:185-195 | one new critter at the start per direction in which it can be left, in compass order |
| Day10Pipes.SpawnIfOpen | rust/day_10/src/main.rs:189-191 | one round: a new critter for the direction exactly when the start can be left that way |
| Day10Pipes.CompassStep | rust/day_10/src/main.rs:188-192 | the open directions of one more compass point are the earlier ones plus it if open |
| Day10Pipes.OpenFromAppend | rust/day_10/src/main.rs:188-192 | filtering one more direction at the end appends it if the start can be left that way |
| Day10Pipes.FirstRouteIsLoop | rust/day_10/src/main.rs:328-335 | the first completed walk contains the start and is a loop walked from the start in one of the directions |
| Day10Pipes.Calculate1 | rust/day_10/src/main.rs:324-338 | half the size of the first completed loop |
| Day10Pipes.StartTile | rust/day_10/src/main.rs:371-379 | a tile exactly for two different directions, and it is open on exactly those two sides |
| Day10Pipes.ScanRowCountsOffRoute | rust/day_10/src/main.rs:395-425 | scanning a row counts only cells off the route, each at most once |
| Day10Pipes.InsideCountBound | rust/day_10/src/main.rs:393-427 | the count is at most the number of cells off the loop |
| Day10Pipes.UntouchedRowCountsNothing | rust/day_10/src/main.rs:395-425 | a row the loop does not touch, scanned from outside, counts nothing |
| Day10Pipes.Calculate2 | rust/day_10/src/main.rs:362-428 | the tile under `S` exists, and the count is the scan-line count over the route of the first critter's walk |
| Day10Pipes.ScanInside | rust/day_10/src/main.rs:390-427 | the nested loops compute the scan-line count, `last_corner` carried across rows as the code has it |
| Day10Pipes.ExampleParses | rust/day_10/src/main.rs:252-264 | the first example's lines parse to its grid with the start at (1, 1) |
| Day10Pipes.ExampleStartDirections | rust/day_10/src/main.rs:267-275 | the example's start can be left East and South, and its tile is `F` |
| Day10Pipes.SquareStart | rust/day_10/src/main.rs:185-195 | a start with the square's pipes around it is left East and South only |
| Day10Pipes.WalkStep | rust/day_10/src/main.rs:211-227 | one step onto a tile other than the start adds it to the rest of the walk |
| Day10Pipes.ExampleIsSquare | rust/day_10/src/main.rs:252-264 | the example grid has the square loop's tiles |
| Day10Pipes.SquareWalkHome | rust/day_10/src/main.rs:291-299 | the last four moves, west then up the left side, end at the start heading North |
| Day10Pipes.SquareWalkSide | rust/day_10/src/main.rs:287-291 | two more moves down the right side in front of the walk home |
| Day10Pipes.SquareWalkOut | rust/day_10/src/main.rs:284-287 | two more moves east from the start in front |
| Day10Pipes.ExampleWalk | rust/day_10/src/main.rs:303-316 | the walk east from the start closes after eight moves with the eight cells of the loop |
| Day10Pipes.ExampleLoopSize | rust/day_10/src/main.rs:309-315 | the loop has eight cells |
| Day10Pipes.ExampleHalf | rust/day_10/src/main.rs:309-315 | the four cells of the last moves, all left of column 3 |
| Day10Pipes.ExamplePartOne | rust/day_10/src/main.rs:344-348 | on the first example the farthest tile is 4 moves away |
| Day11Galaxies.RowGalaxies | rust/day_11/src/main.rs:10-12 | exactly the `#` columns of the line from `x` on, each with row `y`, left to right |
| Day11Galaxies.GalaxiesFrom | rust/day_11/src/main.rs:7-13 | exactly the `#` positions of the rows from `y` on, in row-major order |
| Day11Galaxies.Galaxies | rust/day_11/src/main.rs:6-14 | a position is listed exactly when the map has a `#` there; the list is in row-major order |
| Day11Galaxies.GapsCount | rust/day_11/src/main.rs:29-39 | the empty-index counter equals the size of the set of unoccupied indices below `n` |
| Day11Galaxies.SetMax | rust/day_11/src/main.rs:30 | the maximum of a non-empty set is in it and bounds all of it |
| Day11Galaxies.MaxOf | rust/day_11/src/main.rs:30 | the loop over the set returns an element that bounds every element |
| Day11Galaxies.OneDirectionOffsets | rust/day_11/src/main.rs:29-39 | the fold yields, for each index up to the largest occupied one, `speed` times the unoccupied indices up to and including it |
| Day11Galaxies.Columns | rust/day_11/src/main.rs:17-23 | exactly the columns some galaxy has |
| Day11Galaxies.Rows | rust/day_11/src/main.rs:17-23 | exactly the rows some galaxy has |
| Day11Galaxies.ExpansionOffsets | rust/day_11/src/main.rs:16-27 | the loop collects the occupied columns and rows and returns the offsets of each axis |
| Day11Galaxies.OffsetsLength | rust/day_11/src/main.rs:30 | the offsets end at the largest occupied index and cover every occupied one |
| Day11Galaxies.GapsMonotone | rust/day_11/src/main.rs:29-39 | the empty count never decreases and grows by at most one per index |
| Day11Galaxies.OffsetsMonotone | rust/day_11/src/main.rs:29-39 | the offsets never decrease |
| Day11Galaxies.OffsetsStep | rust/day_11/src/main.rs:32-36 | an occupied index repeats the previous offset (0 at the start), an unoccupied one adds `speed` |
| Day11Galaxies.Expand | rust/day_11/src/main.rs:41-44 | same count and order; each galaxy moves by its column's and its row's offset |
| Day11Galaxies.ExpandCoordinate | rust/day_11/src/main.rs:41-44 | an occupied index gets `speed` for every empty index before it |
| Day11Galaxies.ExpandOrder | rust/day_11/src/main.rs:41-44 | expansion keeps occupied columns (rows) strictly in order |
| Day11Galaxies.ExpandDistance | rust/day_11/src/main.rs:41-44 | the expanded gap between two occupied indices is the original gap plus `speed` per empty index between them |
| Day11Galaxies.OffsetsFit | rust/day_11/src/main.rs:43 | every galaxy's column and row index into the offsets, so `expand` stays in bounds |
| Day11Galaxies.FullSumCons | rust/day_11/src/main.rs:79-87 | the all-pairs distance sum splits off one galaxy's row of distances |
| Day11Galaxies.PairSumHalf | rust/day_11/src/main.rs:79-87 | the sum over `combinations(2)` counts every unordered pair once: twice it is the sum over all ordered pairs |
| Day11Galaxies.Calculate | rust/day_11/src/main.rs:73-88 | the sum of the Manhattan distances of all pairs of expanded galaxies; a map with no galaxy is where the source panics |
| Day11Galaxies.ExampleColumnOffsets | rust/day_11/src/main.rs:59-64 | the example's column offsets at any speed, matching the test's vectors at speeds 1 and 10 |
| Day11Galaxies.ExampleRowOffsets | rust/day_11/src/main.rs:59-64 | the example's row offsets at any speed, matching the test's vectors at speeds 1 and 10 |
| Day11Galaxies.ExamplePairSumSpeedOne | rust/day_11/src/main.rs:95-96 | the example galaxies expanded at speed 1 have pair sum 374 |
| Day11Galaxies.ExamplePairSumSpeedNine | rust/day_11/src/main.rs:95-97 | the example galaxies expanded at speed 9 have pair sum 1030 |
| Day12Springs.ValidFrom | rust/day_12/src/main.rs:53-57 | true exactly when every position from `k` to the candidate's end is allowed by the pattern |
| Day12Springs.Validate | rust/day_12/src/main.rs:51-58 | true exactly when every position between the old fixture's end and the candidate's end is allowed by the pattern (`?` accepts anything) |
| Day12Springs.ValidateExtends | rust/day_12/src/main.rs:51-58 | on an extension of a compatible fixture, checking only the new part decides compatibility of the whole candidate |
| Day12Springs.ChunkText | rust/day_12/src/main.rs:29 | the next run's length, plus one separating dot when more runs follow |
| Day12Springs.Candidate | rust/day_12/src/main.rs:38 | the candidate extends the fixture by `l` dots and the run text |
| Day12Springs.CandidateFits | rust/day_12/src/main.rs:30-38 | with at most `max_space_size` dots the candidate fits in the pattern and leaves room for the remaining runs |
| Day12Springs.Padded | rust/day_12/src/main.rs:20 | the fixture extended with dots to the pattern's length |
| Day12Springs.SuccessorsUpTo | rust/day_12/src/main.rs:35-43 | at most `n` states, each one following `s`: same pattern, extended fixture, first run removed |
| Day12Springs.SuccessorsUpToStep | rust/day_12/src/main.rs:37-43 | one more loop round appends the candidate exactly when it is valid |
| Day12Springs.Successors | rust/day_12/src/main.rs:15-46 | at most one state per possible number of dots, each following `s`; with no runs left every result is terminal |
| Day12Springs.SuccessorsUpToFixture | rust/day_12/src/main.rs:37-43 | every collected state is the valid candidate for some number of dots below `n` |
| Day12Springs.SuccessorsUpToComplete | rust/day_12/src/main.rs:37-43 | every valid candidate with fewer than `n` dots is collected |
| Day12Springs.SuccessorsUpToOrdered | rust/day_12/src/main.rs:37-43 | collected states have strictly increasing fixture lengths |
| Day12Springs.SuccessorsExactly | rust/day_12/src/main.rs:28-46 | with runs left, a candidate with at most `max_space_size` dots fits, and it is a successor exactly when `validate` accepts it |
| Day12Springs.SuccessorsAreCandidates | rust/day_12/src/main.rs:28-46 | with runs left, every successor is a valid candidate for some number of dots in `0..=max_space_size` |
| Day12Springs.SuccessorsOrdered | rust/day_12/src/main.rs:37-45 | with runs left, successors come in increasing order of the number of dots |
| Day12Springs.SuccessorsCompatible | rust/day_12/src/main.rs:15-46 | every successor of a compatible state is compatible with the pattern |
| Day12Springs.NextStates | rust/day_12/src/main.rs:15-46 | the loop returns exactly the successors |
| Day12Springs.ArrangementsTally | rust/day_12/src/main.rs:116-124 | a state's count of reachable terminal states is the tally over its successors |
| Day12Springs.TallyTerminal | rust/day_12/src/main.rs:118-119 | a list of terminal states counts one each |
| Day12Springs.PushedBound | rust/day_12/src/main.rs:116-124 | at most `b - 1` successors with one run fewer weigh less than the popped state |
| Day12Springs.NonTerminal | rust/day_12/src/main.rs:117-123 | the kept states are the non-terminal ones; with the terminal ones they account for the whole list |
| Day12Springs.NonTerminalQueued | rust/day_12/src/main.rs:121 | queued states keep their fit, their pattern and their number of runs |
| Day12Springs.NonTerminalNone | rust/day_12/src/main.rs:117-123 | nothing is queued when every successor is terminal |
| Day12Springs.TallySplit | rust/day_12/src/main.rs:117-123 | counting the terminal successors and queueing the others keeps the total owed |
| Day12Springs.NonTerminalWeight | rust/day_12/src/main.rs:121 | the queued successors weigh at most their number times one successor's weight |
| Day12Springs.OwedAppend | rust/day_12/src/main.rs:121 | the counts owed by two queues add up |
| Day12Springs.WeightAppend | rust/day_12/src/main.rs:121 | the weights of two queues add up |
| Day12Springs.PushQueued | rust/day_12/src/main.rs:121 | pushing the non-terminal successors keeps every queued state fitting, on the queue's pattern |
| Day12Springs.PushSuccessors | rust/day_12/src/main.rs:117-123 | the inner loop pushes exactly the non-terminal successors, in order, and counts the terminal ones |
| Day12Springs.CountArrangements | rust/day_12/src/main.rs:110-126 | the work-queue loop terminates and counts exactly the terminal states reachable from the initial state |
| Day12Springs.UnfoldPattern | rust/day_12/src/main.rs:104 | `unfold` copies of the pattern with `unfold - 1` tokens between them, by length |
| Day12Springs.UnfoldChunks | rust/day_12/src/main.rs:107 | `unfold` copies of the runs, by length |
| Day12Springs.UnfoldChunksSum | rust/day_12/src/main.rs:107 | the unfolded runs sum to `unfold` times the runs' sum |
| Day12Springs.ParseChunks | rust/day_12/src/main.rs:106 | `Some` exactly when every piece parses; each run is its piece's value |
| Day12Springs.InitialState | rust/day_12/src/main.rs:102-109 | `Some` exactly when the line has two words and the second parses; then the unfolded pattern, an empty fixture and the unfolded runs |
| Day12Springs.GetLineResults | rust/day_12/src/main.rs:101-128 | the number of terminal states reachable from the line's initial state |
| Day12Springs.ExamplePad | rust/day_12/src/main.rs:68-71 | with no runs left `.###.` pads to `.###........`, as the test expects |
| Day12Springs.ExampleFirstRunCandidates | rust/day_12/src/main.rs:86-89 | for runs 3, 2, 1 from the start, up to four dots and the candidates `###.` to `....###.` |
| Day12Springs.ExampleFirstRunValid | rust/day_12/src/main.rs:86-89 | only the candidate `.###.` agrees with the pattern |
| Day12Springs.ExampleFirstRun | rust/day_12/src/main.rs:86-89 | the one successor is `.###.` with runs 2, 1, as the test expects |
| Day12Springs.ExampleTwoRuns | rust/day_12/src/main.rs:81-85 | runs 2, 3 after `.###.` give `.###.##.` and `.###..##.`, as the test expects |
| Day12Springs.OneRunValid | rust/day_12/src/main.rs:72-80 | after `.###.` with the last run 2, up to five dots fit and every candidate agrees with the pattern |
| Day12Springs.OneRunSteps | rust/day_12/src/main.rs:72-80 | the successors are the candidates with zero to five dots, in order, with no runs left |
| Day12Springs.OneRunCandidates | rust/day_12/src/main.rs:72-80 | the six candidates are `.###.##` to `.###......##` |
| Day12Springs.ExampleOneRun | rust/day_12/src/main.rs:72-80 | `.###.` with runs `[2]` has the six successors the test expects |

## Left out

- Reading the input files (`common::load_aoc_input`): every operation takes the file's lines as a parameter, and the examples are rebuilt from the values the tests expect, because the `test_data` files are not part of this model.
- Day 6 (`rust/day_6`): it computes with `f64` square roots, and floating point is not modelled.
- The `main` functions, `println!` output and `Debug`/display formatting are not modelled, because they only print.
- The `regex` crate (day 3's `[^.\d]|\d+` scan) and the `range_ext` crate (day 5's range intersection) are not modelled as libraries. The model writes out the behaviour the code relies on (`ScanFrom`, `IntersectExt`).
- Day 8 `find_loop` and `example2::compute` are not modelled: unbounded cycle searches over all starting nodes, run in parallel through `rayon`, with printing. Only the `GhostZeroes` iterator of part two is modelled, as a class.
- Day 12 `exercise1::calculate` is not modelled: it compares line results for debugging, prints them and sums the constant 2 per line. `get_line_results`, which it calls, is modelled in full.
- `HashMap`/`HashSet` iteration order is not modelled. Loops over them pick elements in any order, and sums are proved independent of that order.
- Integer widths are not modelled: `u32` sums and powers in days 1, 2 and 4, the `u32` part numbers and products of day 3, `i32` arithmetic in day 9, and `usize` in days 5, 7 (bids and the rank-weighted total), 8 (step counts), 10 (coordinates and step counts), 11 and 12 are unbounded integers. Overflow panics and wrap-around are therefore not captured. The `u32` range is modelled where `parse::<u32>` rejects a number.
- Day10Pipes.Shift: models `saturating_add_signed` at zero only. The saturation at the top of `usize` is not modelled, because integers are unbounded.
- Unbounded loops whose termination the source does not guarantee carry a fuel bound: day 8's step search (`Search`), day 10's walk around the loop (`Around`) and the `move_critter_around` loop. A bound that runs out is reported as `None` or excluded by a precondition.
- Whitespace and `trim` treat only ASCII spaces, tabs and line ends as whitespace. Strings carry no Unicode normalisation.
- Day 3: the `regex` class `\d` also matches non-ASCII decimal digits, and regex match offsets count bytes. `DigitRun` and `ScanFrom` accept only `0`–`9` and count characters. Both agree on ASCII input.
- Day 1's `Extractor` trait: only `SimpleExtractor`, the implementation the solution uses, is modelled.
- Panics stated as preconditions, not as `None`. Ordinary input can break some of them, and the source then panics; the model says nothing about that input:
  - day 4: `CountCards` when a card wins copies past the end of the table (`InRange`); `Compute2` returns `None` there instead;
  - day 5: `Calculate1`/`Calculate2` when the seeds line or a map block does not parse; `Calculate1` with no seeds, where `min().unwrap()` panics; `Calculate2` with an odd number of seed numbers, where the second `chunk.next().unwrap()` panics;
  - day 11: `Calculate` on a map without galaxies, where `max().unwrap()` in `get_expansion_offsets` panics;
  - day 8: `Journey` started on an unknown node; `Journey.Next` when the current instruction leads to an unknown node (`Step` is `None`); `Compute1` when the map does not load, has no `AAA`, or reaches no `ZZZ` within the fuel bound;
  - day 10: a character outside the tile alphabet, where `from_char` panics (`ValidChars` on `ParseMap`, `Calculate1` and `Calculate2`);
  - day 10: `Calculate1` when no start direction gives a closed route, and `Calculate2` when the start does not have exactly two open directions or the first walk fails. A map without `S` does not panic: the start stays at (0, 0), as `LastStartIsLastS` states;
  - day 12: `GetLineResults` on a line without two words or whose runs do not parse (`InitialState` is `None`); `next_states` when the remaining runs do not fit the rest of the pattern, where a `usize` subtraction underflows (`Fits`).
- Day 5's iterator chain that collects the rules is modelled as recursive functions, not a loop, because the source has no loop there.
- Day 5: `Less` means the rule's source range lies wholly below the range, so the range carries on unchanged as the remainder (`IntersectExt`, `MapRange`).
- Day 10's `exercise2` does not reset `last_corner` at the start of each row. The model keeps that behaviour as written.
- Day 3: a digit run that does not fit a `u32` is classified as a marker, because the code's `if let Ok(value) = … parse()` falls through to its `else` branch, which yields `Marker`. The model keeps this.
- Day 11's `expand` is not evaluated on the example map. The example pair sums are stated on the expanded coordinates, and the offsets on the example's occupied columns and rows.
- Day4Scratchcards.ParseLine: its own contract states only that a parsed line had exactly three pieces. Its content is stated by the round trip `ParseLineFormat`.
- Day7Cards.ParseHand: its own contract states only that a hand has five cards. Its content is stated by `CardsTextOfParse` and `ParseCardsEach`.
- Day7Cards.Compute: its own contract states only when it fails to parse. Its value is `Winnings(SortEntries(entries, joker), 1)`: the order is stated by `SortEntries`, `SortStable` and `SortedUnique`, the ranks by `WinningsConcat`, `WinningsAppend` and `WinningsShift`, and the independence of input order by `ComputeReordered`.
- Day4Scratchcards.Compute1: its own contract states only when it fails to parse. The score is stated by `ScoreDoubles`.
