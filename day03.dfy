/** Day 3: an engine schematic. Every maximal run of digits is a number, every
    other character except `.` is a marker; a number is a part number when a
    marker touches it, and a `*` touched by exactly two numbers is a gear. */
module Day3Schematic {
  import opened Wrappers
  import opened Strings
  import opened Collections

  datatype Position = Position(x: nat, y: nat)

  datatype MapItem =
    | Number(pos: Position, length: nat, value: nat)
    | Marker(pos: Position, sign: char)

  /** `MapItem::num`. */
  function Num(item: MapItem): (r: Option<nat>)
    ensures r.Some? <==> item.Number?
  {
    match item
    case Number(_, _, value) => Some(value)
    case Marker(_, _) => None
  }

  /** The schematic: every item keyed by the position of its first character. */
  datatype Schematic = Schematic(items: map<Position, MapItem>)

  // --------------------------------------------------------------- scanner

  /** Length of the run of digits starting at `from`. */
  function DigitRun(line: string, from: nat): (n: nat)
    requires from <= |line|
    ensures from + n <= |line|
    ensures AllDigits(line[from..from + n])
    ensures from + n < |line| ==> !IsDigit(line[from + n])
    decreases |line| - from
  {
    if from == |line| || !IsDigit(line[from]) then 0
    else
      var n := DigitRun(line, from + 1);
      assert line[from..from + 1 + n] == [line[from]] + line[from + 1..from + 1 + n];
      1 + n
  }

  /** The item a match of the pattern `[^.\d]|\d+` starting at `x` becomes: a
      digit run whose value fits in `u32` is a `Number`, any other match a
      `Marker` of its first character. */
  function ItemAt(line: string, ln: nat, x: nat): (r: MapItem)
    requires x < |line| && line[x] != '.'
    ensures r.pos == Position(x, ln)
    ensures r.Number? ==>
      IsDigit(line[x]) && r.length == DigitRun(line, x) &&
      r.value == DigitsValue(line[x..x + r.length]) && r.value < U32_LIMIT
    ensures r.Marker? ==>
      r.sign == line[x] && (!IsDigit(line[x]) || DigitsValue(line[x..x + DigitRun(line, x)]) >= U32_LIMIT)
  {
    if IsDigit(line[x]) then
      var n := DigitRun(line, x);
      match ParseBounded(line[x..x + n], U32_LIMIT)
      case Some(value) => Number(Position(x, ln), n, value)
      case None => Marker(Position(x, ln), line[x])
    else Marker(Position(x, ln), line[x])
  }

  /** The length of the match starting at `x`. */
  function MatchLength(line: string, x: nat): (n: nat)
    requires x < |line|
    ensures 1 <= n && x + n <= |line|
  {
    if IsDigit(line[x]) then DigitRun(line, x) else 1
  }

  /** `find_iter` of the pattern on `line` from index `from`, each match
      turned into its item. */
  function ScanFrom(line: string, ln: nat, from: nat): seq<MapItem>
    requires from <= |line|
    decreases |line| - from
  {
    if from == |line| then []
    else if line[from] == '.' then ScanFrom(line, ln, from + 1)
    else [ItemAt(line, ln, from)] + ScanFrom(line, ln, from + MatchLength(line, from))
  }

  /** Where a match starts: a character other than `.` that does not continue
      a digit run. */
  predicate ItemStart(line: string, x: nat) {
    x < |line| && line[x] != '.' && (!IsDigit(line[x]) || x == 0 || !IsDigit(line[x - 1]))
  }

  /** `from` is not inside a run of digits. */
  predicate Boundary(line: string, from: nat) {
    from <= |line| && (from == 0 || from == |line| || !IsDigit(line[from - 1]) || !IsDigit(line[from]))
  }

  /** Every item of `r` is the item of a match start at or after `from`. */
  ghost predicate MatchItems(line: string, ln: nat, from: nat, r: seq<MapItem>) {
    forall i :: 0 <= i < |r| ==>
      r[i].pos.y == ln && from <= r[i].pos.x && ItemStart(line, r[i].pos.x) &&
      r[i] == ItemAt(line, ln, r[i].pos.x)
  }

  predicate Increasing(r: seq<MapItem>) {
    forall i, j :: 0 <= i < j < |r| ==> r[i].pos.x < r[j].pos.x
  }

  /** Every match start at or after `from` has an item in `r`. */
  ghost predicate AllMatches(line: string, from: nat, r: seq<MapItem>) {
    forall x :: from <= x && ItemStart(line, x) ==> exists i :: 0 <= i < |r| && r[i].pos.x == x
  }

  lemma {:induction false} ScanFromSound(line: string, ln: nat, from: nat)
    requires Boundary(line, from)
    ensures MatchItems(line, ln, from, ScanFrom(line, ln, from))
    ensures Increasing(ScanFrom(line, ln, from))
    decreases |line| - from
  {
    if from < |line| {
      if line[from] == '.' {
        ScanFromSound(line, ln, from + 1);
        assert ScanFrom(line, ln, from) == ScanFrom(line, ln, from + 1);
      } else {
        var n := MatchLength(line, from);
        ScanFromSound(line, ln, from + n);
        var rest := ScanFrom(line, ln, from + n);
        assert ScanFrom(line, ln, from) == [ItemAt(line, ln, from)] + rest;
      }
    }
  }

  /** No match starts inside a digit run. */
  lemma InsideMatch(line: string, from: nat)
    requires from < |line| && line[from] != '.'
    ensures forall x :: from < x < from + MatchLength(line, from) ==> !ItemStart(line, x)
  {
    var n := MatchLength(line, from);
    forall x | from < x < from + n
      ensures !ItemStart(line, x)
    {
      assert line[from..from + n][x - 1 - from] == line[x - 1];
      assert line[from..from + n][x - from] == line[x];
    }
  }

  lemma {:induction false} ScanFromComplete(line: string, ln: nat, from: nat)
    requires Boundary(line, from)
    ensures AllMatches(line, from, ScanFrom(line, ln, from))
    decreases |line| - from
  {
    if from < |line| {
      if line[from] == '.' {
        ScanFromComplete(line, ln, from + 1);
        assert ScanFrom(line, ln, from) == ScanFrom(line, ln, from + 1);
      } else {
        var n := MatchLength(line, from);
        var rest := ScanFrom(line, ln, from + n);
        ScanFromComplete(line, ln, from + n);
        InsideMatch(line, from);
        var r := ScanFrom(line, ln, from);
        assert r == [ItemAt(line, ln, from)] + rest;
        forall x | from <= x && ItemStart(line, x)
          ensures exists i :: 0 <= i < |r| && r[i].pos.x == x
        {
          if x == from {
            assert r[0].pos.x == x;
          } else {
            var i :| 0 <= i < |rest| && rest[i].pos.x == x;
            assert r[i + 1] == rest[i];
          }
        }
      }
    }
  }

  /** `collect()` into a `HashMap`: each item keyed by its position. */
  function ToMap(items: seq<MapItem>): map<Position, MapItem> {
    if items == [] then map[]
    else ToMap(items[..|items| - 1])[items[|items| - 1].pos := items[|items| - 1]]
  }

  lemma {:induction false} ToMapKeys(items: seq<MapItem>)
    requires forall i, j :: 0 <= i < j < |items| ==> items[i].pos != items[j].pos
    ensures forall k :: k in ToMap(items) <==> exists i :: 0 <= i < |items| && items[i].pos == k
    ensures forall i :: 0 <= i < |items| ==> items[i].pos in ToMap(items) && ToMap(items)[items[i].pos] == items[i]
  {
    if items != [] {
      var init := items[..|items| - 1];
      ToMapKeys(init);
      forall k | k in ToMap(items)
        ensures exists i :: 0 <= i < |items| && items[i].pos == k
      {
        if k != items[|items| - 1].pos {
          assert k in ToMap(init);
          var i :| 0 <= i < |init| && init[i].pos == k;
          assert items[i] == init[i];
        }
      }
    }
  }

  /** `Map::parse_line`. */
  function LineItems(ln: nat, line: string): map<Position, MapItem> {
    ToMap(ScanFrom(line, ln, 0))
  }

  /** The keys of a line's items are exactly the match starts, and each key's
      item is the match's item. */
  lemma LineItemsAreMatches(ln: nat, line: string)
    ensures forall k :: k in LineItems(ln, line) ==>
      k.y == ln && ItemStart(line, k.x) && LineItems(ln, line)[k] == ItemAt(line, ln, k.x)
    ensures forall k: Position :: k.y == ln && ItemStart(line, k.x) ==> k in LineItems(ln, line)
  {
    LineItemsSound(ln, line);
    LineItemsComplete(ln, line);
  }

  /** The scan of a line yields its items at increasing, so distinct, positions. */
  lemma LineScanKeys(ln: nat, line: string, r: seq<MapItem>)
    requires r == ScanFrom(line, ln, 0)
    ensures MatchItems(line, ln, 0, r)
    ensures forall k :: k in ToMap(r) <==> exists i :: 0 <= i < |r| && r[i].pos == k
    ensures forall i :: 0 <= i < |r| ==> r[i].pos in ToMap(r) && ToMap(r)[r[i].pos] == r[i]
  {
    ScanFromSound(line, ln, 0);
    forall i, j | 0 <= i < j < |r|
      ensures r[i].pos != r[j].pos
    {
      assert r[i].pos.x < r[j].pos.x;
    }
    ToMapKeys(r);
  }

  lemma LineItemsSound(ln: nat, line: string)
    ensures forall k :: k in LineItems(ln, line) ==>
      k.y == ln && ItemStart(line, k.x) && LineItems(ln, line)[k] == ItemAt(line, ln, k.x)
  {
    var r := ScanFrom(line, ln, 0);
    LineScanKeys(ln, line, r);
    assert LineItems(ln, line) == ToMap(r);
    forall k | k in LineItems(ln, line)
      ensures k.y == ln && ItemStart(line, k.x) && LineItems(ln, line)[k] == ItemAt(line, ln, k.x)
    {
      var i :| 0 <= i < |r| && r[i].pos == k;
    }
  }

  lemma LineItemsComplete(ln: nat, line: string)
    ensures forall k: Position :: k.y == ln && ItemStart(line, k.x) ==> k in LineItems(ln, line)
  {
    var r := ScanFrom(line, ln, 0);
    LineScanKeys(ln, line, r);
    assert LineItems(ln, line) == ToMap(r);
    ScanFromComplete(line, ln, 0);
    forall k: Position | k.y == ln && ItemStart(line, k.x)
      ensures k in LineItems(ln, line)
    {
      var i :| 0 <= i < |r| && r[i].pos.x == k.x;
      assert r[i].pos == k;
    }
  }

  /** The items of the first `n` lines. */
  function ItemsOf(lines: seq<string>, n: nat): map<Position, MapItem>
    requires n <= |lines|
  {
    if n == 0 then map[] else ItemsOf(lines, n - 1) + LineItems(n - 1, lines[n - 1])
  }

  function SchematicOf(lines: seq<string>): Schematic {
    Schematic(ItemsOf(lines, |lines|))
  }

  /** Every item is keyed by its own position. */
  ghost predicate WellKeyed(s: Schematic) {
    forall k :: k in s.items ==> s.items[k].pos == k
  }

  /** Every key of the first `n` lines' items is a match start, keyed to the
      match's item. */
  lemma {:induction false} ItemsOfAreMatches(lines: seq<string>, n: nat)
    requires n <= |lines|
    ensures forall k :: k in ItemsOf(lines, n) ==>
      k.y < n && ItemStart(lines[k.y], k.x) && ItemsOf(lines, n)[k] == ItemAt(lines[k.y], k.y, k.x)
  {
    if n > 0 {
      var before := ItemsOf(lines, n - 1);
      var line := LineItems(n - 1, lines[n - 1]);
      assert ItemsOf(lines, n) == before + line;
      ItemsOfAreMatches(lines, n - 1);
      LineItemsAreMatches(n - 1, lines[n - 1]);
      forall k: Position | k in before + line
        ensures k.y < n && ItemStart(lines[k.y], k.x) && (before + line)[k] == ItemAt(lines[k.y], k.y, k.x)
      {
        if k in line {
          assert (before + line)[k] == line[k];
        } else {
          assert (before + line)[k] == before[k];
        }
      }
    }
  }

  /** Every match start of the first `n` lines is a key. */
  lemma {:induction false} ItemsOfComplete(lines: seq<string>, n: nat)
    requires n <= |lines|
    ensures forall k: Position :: k.y < n && ItemStart(lines[k.y], k.x) ==> k in ItemsOf(lines, n)
  {
    if n > 0 {
      ItemsOfComplete(lines, n - 1);
      LineItemsAreMatches(n - 1, lines[n - 1]);
    }
  }

  /** The parsed schematic holds one item per match, keyed by where the match
      starts, and nothing else. */
  lemma SchematicIsMatches(lines: seq<string>)
    ensures var s := SchematicOf(lines);
      WellKeyed(s) &&
      (forall k :: k in s.items ==>
         k.y < |lines| && ItemStart(lines[k.y], k.x) && s.items[k] == ItemAt(lines[k.y], k.y, k.x)) &&
      forall k: Position :: k.y < |lines| && ItemStart(lines[k.y], k.x) ==> k in s.items
  {
    ItemsOfAreMatches(lines, |lines|);
    ItemsOfComplete(lines, |lines|);
  }

  /** `Map::parse`. */
  method Parse(lines: seq<string>) returns (s: Schematic)
    ensures s == SchematicOf(lines)
  {
    var items: map<Position, MapItem> := map[];
    for ln := 0 to |lines|
      invariant items == ItemsOf(lines, ln)
    {
      items := items + LineItems(ln, lines[ln]);
    }
    s := Schematic(items);
  }

  // ------------------------------------------------------------ neighbours

  /** The cell `k` touches an item of length `len` at `p`: it lies in the box
      one cell around the item and is not one of the item's own cells. */
  predicate InBox(p: Position, len: nat, k: Position) {
    k.x + 1 >= p.x && k.x <= p.x + len && k.y + 1 >= p.y && k.y <= p.y + 1 &&
    !(k.y == p.y && p.x <= k.x < p.x + len)
  }

  /** The first `n` columns of `(-1..=len).cartesian_product(-1..=1)`,
      shifted to `p`. */
  function Box(p: Position, n: nat): seq<(int, int)> {
    if n == 0 then []
    else
      var x := p.x - 1 + (n - 1);
      Box(p, n - 1) + [(x, p.y - 1), (x, p.y), (x, p.y + 1)]
  }

  /** The cells of `cells` with no negative coordinate that are not the
      item's own. */
  function KeepCells(cells: seq<(int, int)>, p: Position, len: nat): seq<Position> {
    if cells == [] then []
    else
      var rest := KeepCells(cells[1..], p, len);
      var (xi, yi) := cells[0];
      if xi >= 0 && yi >= 0 && !(yi == p.y && p.x <= xi < p.x + len) then
        [Position(xi, yi)] + rest
      else rest
  }

  /** `filter_map(|position| self.map.get(position))`. */
  function Lookup(items: map<Position, MapItem>, cells: seq<Position>): seq<MapItem> {
    if cells == [] then []
    else
      var rest := Lookup(items, cells[1..]);
      if cells[0] in items then [items[cells[0]]] + rest else rest
  }

  /** `Map::neighbours`. */
  function Neighbours(s: Schematic, p: Position, len: nat): seq<MapItem> {
    Lookup(s.items, KeepCells(Box(p, len + 2), p, len))
  }

  lemma {:induction false} BoxCells(p: Position, n: nat)
    ensures forall c :: c in Box(p, n) <==> p.x - 1 <= c.0 < p.x - 1 + n && p.y - 1 <= c.1 <= p.y + 1
  {
    if n > 0 {
      BoxCells(p, n - 1);
    }
  }

  lemma {:induction false} KeepCellsKeeps(cells: seq<(int, int)>, p: Position, len: nat)
    ensures forall k :: k in KeepCells(cells, p, len) <==>
      (k.x, k.y) in cells && !(k.y == p.y && p.x <= k.x < p.x + len)
  {
    if cells != [] {
      KeepCellsKeeps(cells[1..], p, len);
      assert cells == [cells[0]] + cells[1..];
      forall k: Position
        ensures k in KeepCells(cells, p, len) <==>
          (k.x, k.y) in cells && !(k.y == p.y && p.x <= k.x < p.x + len)
      {
        if (k.x, k.y) == cells[0] {
        }
      }
    }
  }

  lemma {:induction false} LookupFinds(items: map<Position, MapItem>, cells: seq<Position>)
    ensures forall it :: it in Lookup(items, cells) <==> exists k :: k in cells && k in items && items[k] == it
  {
    if cells != [] {
      LookupFinds(items, cells[1..]);
      assert cells == [cells[0]] + cells[1..];
    }
  }

  /** The neighbours are exactly the items keyed in the item's box. */
  lemma NeighboursInBox(s: Schematic, p: Position, len: nat)
    ensures forall it :: it in Neighbours(s, p, len) <==>
      exists k :: InBox(p, len, k) && k in s.items && s.items[k] == it
  {
    var cells := KeepCells(Box(p, len + 2), p, len);
    BoxCells(p, len + 2);
    KeepCellsKeeps(Box(p, len + 2), p, len);
    LookupFinds(s.items, cells);
    forall k: Position
      ensures k in cells <==> InBox(p, len, k)
    {
    }
  }

  lemma {:induction false} BoxDistinct(p: Position, n: nat)
    ensures Distinct(Box(p, n))
  {
    if n > 0 {
      BoxDistinct(p, n - 1);
      BoxCells(p, n - 1);
      var r := Box(p, n);
      var x := p.x - 1 + (n - 1);
      forall i, j | 0 <= i < j < |r|
        ensures r[i] != r[j]
      {
        if j >= |r| - 3 && i < |r| - 3 {
          assert r[i] in Box(p, n - 1);
        }
      }
    }
  }

  lemma {:induction false} KeepCellsDistinct(cells: seq<(int, int)>, p: Position, len: nat)
    requires Distinct(cells)
    ensures Distinct(KeepCells(cells, p, len))
  {
    if cells != [] {
      KeepCellsDistinct(cells[1..], p, len);
      var rest := KeepCells(cells[1..], p, len);
      var r := KeepCells(cells, p, len);
      if r != rest {
        KeepCellsKeeps(cells[1..], p, len);
        assert forall k :: k in rest ==> (k.x, k.y) in cells[1..];
        forall i, j | 0 <= i < j < |r|
          ensures r[i] != r[j]
        {
          if i == 0 {
            assert r[j] == rest[j - 1] && rest[j - 1] in rest;
          } else {
            assert r[i] == rest[i - 1] && r[j] == rest[j - 1];
          }
        }
      }
    }
  }

  lemma {:induction false} LookupDistinct(s: Schematic, cells: seq<Position>)
    requires WellKeyed(s) && Distinct(cells)
    ensures Distinct(Lookup(s.items, cells))
  {
    if cells != [] {
      LookupDistinct(s, cells[1..]);
      var rest := Lookup(s.items, cells[1..]);
      var r := Lookup(s.items, cells);
      if cells[0] in s.items {
        LookupFinds(s.items, cells[1..]);
        forall i, j | 0 <= i < j < |r|
          ensures r[i] != r[j]
        {
          if i == 0 {
            assert r[j] == rest[j - 1] && rest[j - 1] in rest;
            assert r[j].pos in cells[1..];
          } else {
            assert r[i] == rest[i - 1] && r[j] == rest[j - 1];
          }
        }
      }
    }
  }

  /** In a well-keyed schematic no item is a neighbour twice. */
  lemma NeighboursDistinct(s: Schematic, p: Position, len: nat)
    requires WellKeyed(s)
    ensures Distinct(Neighbours(s, p, len))
  {
    BoxDistinct(p, len + 2);
    KeepCellsDistinct(Box(p, len + 2), p, len);
    LookupDistinct(s, KeepCells(Box(p, len + 2), p, len));
  }

  // ---------------------------------------------------------- part numbers

  predicate HasMarkerNeighbour(s: Schematic, it: MapItem)
    requires it.Number?
  {
    exists n :: n in Neighbours(s, it.pos, it.length) && n.Marker?
  }

  /** `Map::part_numbers`, as the set it enumerates in `HashMap` order. */
  function PartNumbers(s: Schematic): set<MapItem> {
    set it | it in s.items.Values && it.Number? && HasMarkerNeighbour(s, it)
  }

  /** The part numbers are exactly the numbers with a marker keyed in their box. */
  lemma PartNumbersTouchMarkers(s: Schematic, it: MapItem)
    ensures it in PartNumbers(s) <==>
      it in s.items.Values && it.Number? &&
      exists k :: InBox(it.pos, it.length, k) && k in s.items && s.items[k].Marker?
  {
    if it in s.items.Values && it.Number? {
      NeighboursInBox(s, it.pos, it.length);
      if k :| InBox(it.pos, it.length, k) && k in s.items && s.items[k].Marker? {
        assert s.items[k] in Neighbours(s, it.pos, it.length);
      }
    }
  }

  function ValueOf(it: MapItem): nat {
    if it.Number? then it.value else 0
  }

  /** The values of a set of numbers, visited in any order and sorted. */
  method SortedValues(numbers: set<MapItem>) returns (values: seq<nat>)
    requires forall it :: it in numbers ==> it.Number?
    ensures Sorted(values)
    ensures multiset(values) == ValuesOver(numbers, ValueOf)
    ensures Sum(values) == SumOver(numbers, ValueOf)
  {
    values := [];
    var rest := numbers;
    while rest != {}
      invariant rest <= numbers
      invariant Sorted(values)
      invariant multiset(values) + ValuesOver(rest, ValueOf) == ValuesOver(numbers, ValueOf)
      invariant Sum(values) + SumOver(rest, ValueOf) == SumOver(numbers, ValueOf)
      decreases |rest|
    {
      var it :| it in rest;
      TakeValue(values, rest, it);
      values := InsertSorted(Num(it).value, values);
      rest := rest - {it};
    }
  }

  /** Moving one number from the set into the sorted values keeps the
      values, and their sum, together. */
  lemma TakeValue(values: seq<nat>, rest: set<MapItem>, it: MapItem)
    requires Sorted(values) && it in rest && it.Number?
    ensures Num(it).Some?
    ensures multiset(InsertSorted(Num(it).value, values)) + ValuesOver(rest - {it}, ValueOf) ==
      multiset(values) + ValuesOver(rest, ValueOf)
    ensures Sum(InsertSorted(Num(it).value, values)) + SumOver(rest - {it}, ValueOf) ==
      Sum(values) + SumOver(rest, ValueOf)
    ensures |rest - {it}| < |rest|
  {
    ValuesOverAny(rest, ValueOf, it);
    SumOverAny(rest, ValueOf, it);
    assert ValueOf(it) == Num(it).value;
  }

  /** `Map::part_number_values`: the part numbers' values, sorted. */
  method PartNumberValues(s: Schematic) returns (values: seq<nat>)
    ensures Sorted(values)
    ensures multiset(values) == ValuesOver(PartNumbers(s), ValueOf)
    ensures Sum(values) == SumOver(PartNumbers(s), ValueOf)
  {
    values := SortedValues(PartNumbers(s));
  }

  /** `exercise1::compute` on the lines of the input: the sum of all part numbers. */
  method Compute1(lines: seq<string>) returns (total: nat)
    ensures total == SumOver(PartNumbers(SchematicOf(lines)), ValueOf)
  {
    var s := Parse(lines);
    var values := PartNumberValues(s);
    total := Sum(values);
  }

  // ----------------------------------------------------------------- gears

  /** The number `it` of the schematic touches the `*` marker at `k`. */
  predicate Adjacent(s: Schematic, it: MapItem, k: Position) {
    it in s.items.Values && it.Number? && Marker(k, '*') in Neighbours(s, it.pos, it.length)
  }

  /** The numbers among `among` that touch the `*` at `k`. */
  function AdjacentAmong(s: Schematic, among: set<MapItem>, k: Position): set<MapItem> {
    set it | it in among && Adjacent(s, it, k)
  }

  /** The numbers touching the `*` at `k`. */
  function GearNumbers(s: Schematic, k: Position): set<MapItem> {
    AdjacentAmong(s, s.items.Values, k)
  }

  function Elements(v: seq<MapItem>): set<MapItem> {
    set it | it in v
  }

  /** In a well-keyed schematic a number touches the `*` at `k` exactly when
      that marker is keyed in the number's box. */
  lemma AdjacentInBox(s: Schematic, it: MapItem, k: Position)
    requires WellKeyed(s)
    ensures Adjacent(s, it, k) <==>
      it in s.items.Values && it.Number? &&
      k in s.items && s.items[k] == Marker(k, '*') && InBox(it.pos, it.length, k)
  {
    if it.Number? {
      NeighboursInBox(s, it.pos, it.length);
    }
  }

  /** `gears` holds, for every `*`, the numbers of `done` that touch it. */
  ghost predicate Collected(s: Schematic, done: set<MapItem>, gears: map<Position, seq<MapItem>>) {
    (forall k :: k in gears <==> AdjacentAmong(s, done, k) != {}) &&
    (forall k :: k in gears ==> Elements(gears[k]) == AdjacentAmong(s, done, k)) &&
    (WellKeyed(s) ==> forall k :: k in gears ==> Distinct(gears[k]))
  }

  /** `Map::get_gears`: for every `*` touched by a number, the numbers that
      touch it, each once, in the order the `HashMap` visits them. */
  method GetGears(s: Schematic) returns (gears: map<Position, seq<MapItem>>)
    ensures Collected(s, s.items.Values, gears)
  {
    gears := map[];
    var items := s.items.Values;
    var rest := items;
    while rest != {}
      invariant rest <= items
      invariant Collected(s, items - rest, gears)
      decreases |rest|
    {
      var item :| item in rest;
      var done := items - rest;
      if item.Number? {
        gears := AddGears(s, item, gears, done);
      } else {
        forall k
          ensures AdjacentAmong(s, done + {item}, k) == AdjacentAmong(s, done, k)
        {
        }
      }
      assert items - (rest - {item}) == done + {item};
      rest := rest - {item};
    }
    assert items - rest == items;
  }

  /** The inner loop of `get_gears`: push `item` onto the entry of every `*`
      among its neighbours. */
  method AddGears(s: Schematic, item: MapItem, gears: map<Position, seq<MapItem>>, ghost done: set<MapItem>)
    returns (next: map<Position, seq<MapItem>>)
    requires item.Number? && item in s.items.Values && item !in done
    requires Collected(s, done, gears)
    ensures Collected(s, done + {item}, next)
  {
    var neighbours := Neighbours(s, item.pos, item.length);
    if WellKeyed(s) {
      NeighboursDistinct(s, item.pos, item.length);
    }
    next := gears;
    for i := 0 to |neighbours|
      invariant forall k :: k in next <==> PartlyAdjacent(s, done, item, neighbours, i, k) != {}
      invariant forall k :: k in next ==> Elements(next[k]) == PartlyAdjacent(s, done, item, neighbours, i, k)
      invariant WellKeyed(s) ==> forall k :: k in next ==> Distinct(next[k])
    {
      next := PushGear(s, done, item, neighbours, i, next);
    }
    forall k
      ensures PartlyAdjacent(s, done, item, neighbours, |neighbours|, k) == AdjacentAmong(s, done + {item}, k)
    {
      assert neighbours[..|neighbours|] == neighbours;
    }
  }

  /** The numbers touching the `*` at `k` once `item`'s first `i` neighbours
      have been visited. */
  ghost function PartlyAdjacent(s: Schematic, done: set<MapItem>, item: MapItem, neighbours: seq<MapItem>, i: nat, k: Position): set<MapItem>
    requires i <= |neighbours|
  {
    AdjacentAmong(s, done, k) + if Marker(k, '*') in neighbours[..i] then {item} else {}
  }

  /** One step of the inner loop of `get_gears`. */
  method PushGear(s: Schematic, ghost done: set<MapItem>, item: MapItem, neighbours: seq<MapItem>, i: nat,
                  gears: map<Position, seq<MapItem>>)
    returns (next: map<Position, seq<MapItem>>)
    requires item !in done && i < |neighbours|
    requires WellKeyed(s) ==> Distinct(neighbours)
    requires forall k :: k in gears <==> PartlyAdjacent(s, done, item, neighbours, i, k) != {}
    requires forall k :: k in gears ==> Elements(gears[k]) == PartlyAdjacent(s, done, item, neighbours, i, k)
    requires WellKeyed(s) ==> forall k :: k in gears ==> Distinct(gears[k])
    ensures forall k :: k in next <==> PartlyAdjacent(s, done, item, neighbours, i + 1, k) != {}
    ensures forall k :: k in next ==> Elements(next[k]) == PartlyAdjacent(s, done, item, neighbours, i + 1, k)
    ensures WellKeyed(s) ==> forall k :: k in next ==> Distinct(next[k])
  {
    forall k
      ensures PartlyAdjacent(s, done, item, neighbours, i + 1, k) ==
        PartlyAdjacent(s, done, item, neighbours, i, k) + if neighbours[i] == Marker(k, '*') then {item} else {}
    {
      PartlyStep(s, done, item, neighbours, i, k);
    }
    next := gears;
    match neighbours[i] {
      case Marker(markerPos, '*') =>
        var entry := if markerPos in gears then gears[markerPos] else [];
        if WellKeyed(s) {
          assert Marker(markerPos, '*') !in neighbours[..i];
          assert item !in Elements(entry);
        }
        next := gears[markerPos := entry + [item]];
        assert Elements(entry + [item]) == Elements(entry) + {item};
      case _ =>
    }
  }

  lemma PartlyStep(s: Schematic, done: set<MapItem>, item: MapItem, neighbours: seq<MapItem>, i: nat, k: Position)
    requires i < |neighbours|
    ensures PartlyAdjacent(s, done, item, neighbours, i + 1, k) ==
      PartlyAdjacent(s, done, item, neighbours, i, k) + if neighbours[i] == Marker(k, '*') then {item} else {}
  {
    assert neighbours[..i + 1] == neighbours[..i] + [neighbours[i]];
  }

  /** The gear ratio of a `*`: the product of its two numbers, or 0 when it
      does not have exactly two. */
  ghost function Ratio(numbers: set<MapItem>): nat {
    if |numbers| == 2 then
      var a := Pick(numbers);
      assert |numbers - {a}| == 1;
      ValueOf(a) * ValueOf(Pick(numbers - {a}))
    else 0
  }

  lemma RatioOfPair(v: seq<MapItem>)
    requires Distinct(v)
    ensures Ratio(Elements(v)) == if |v| == 2 then ValueOf(v[0]) * ValueOf(v[1]) else 0
  {
    DistinctCard(v);
    if |v| == 2 {
      var numbers := Elements(v);
      assert numbers == {v[0], v[1]};
      var a := Pick(numbers);
      assert numbers - {a} == if a == v[0] then {v[1]} else {v[0]};
    }
  }

  /** The positions of the `*` markers touched by at least one number. */
  ghost function GearKeys(s: Schematic): set<Position> {
    set k | k in s.items && GearNumbers(s, k) != {}
  }

  /** The ratio of a collected gear entry: the product of the values when
      there are exactly two numbers. */
  function PairProduct(numbers: seq<MapItem>): nat {
    if |numbers| == 2 then ValueOf(numbers[0]) * ValueOf(numbers[1]) else 0
  }

  /** `exercise2::compute` on the lines of the input: the sum of the gear
      ratios. */
  method Compute2(lines: seq<string>) returns (total: nat)
    ensures total == SumOver(GearKeys(SchematicOf(lines)), (k: Position) => Ratio(GearNumbers(SchematicOf(lines), k)))
  {
    var s := Parse(lines);
    SchematicIsMatches(lines);
    var gears := GetGears(s);
    GearRatios(s, gears);
    total := SumGears(s, gears);
  }

  lemma GearRatios(s: Schematic, gears: map<Position, seq<MapItem>>)
    requires WellKeyed(s) && Collected(s, s.items.Values, gears)
    ensures gears.Keys == GearKeys(s)
    ensures forall k :: k in gears ==> PairProduct(gears[k]) == Ratio(GearNumbers(s, k))
  {
    forall k | k in gears
      ensures k in s.items
    {
      assert GearNumbers(s, k) != {};
      var it :| it in GearNumbers(s, k);
      AdjacentInBox(s, it, k);
    }
    forall k | k in gears
      ensures PairProduct(gears[k]) == Ratio(GearNumbers(s, k))
    {
      RatioOfPair(gears[k]);
    }
  }

  /** The loop over the gear entries, in the order the `HashMap` visits them. */
  method SumGears(ghost s: Schematic, gears: map<Position, seq<MapItem>>) returns (total: nat)
    requires forall k :: k in gears ==> PairProduct(gears[k]) == Ratio(GearNumbers(s, k))
    ensures total == SumOver(gears.Keys, (k: Position) => Ratio(GearNumbers(s, k)))
  {
    ghost var f := (k: Position) => Ratio(GearNumbers(s, k));
    total := 0;
    var rest := gears.Keys;
    while rest != {}
      invariant rest <= gears.Keys
      invariant total + SumOver(rest, f) == SumOver(gears.Keys, f)
      decreases |rest|
    {
      var k :| k in rest;
      SumOverAny(rest, f, k);
      total := total + PairProduct(gears[k]);
      rest := rest - {k};
    }
  }

  // --------------------------------------------------------------- example

  lemma ExampleLine()
    ensures LineItems(1, ".....+.58.") ==
      map[Position(5, 1) := Marker(Position(5, 1), '+'), Position(7, 1) := Number(Position(7, 1), 2, 58)]
  {
    var line := ".....+.58.";
    assert DigitRun(line, 7) == 2;
    assert line[7..9] == "58";
    assert DigitsValue("58") == 58 by {
      assert "58"[..1] == "5";
    }
    assert ScanFrom(line, 1, 9) == [];
    assert ScanFrom(line, 1, 6) == [Number(Position(7, 1), 2, 58)];
    var items := [Marker(Position(5, 1), '+'), Number(Position(7, 1), 2, 58)];
    assert ScanFrom(line, 1, 0) == items;
    assert items[..1] == [items[0]];
    assert ToMap(items[..1]) == map[Position(5, 1) := items[0]] by {
      assert items[..1][..0] == [];
    }
  }
}
