/** Day 10: a grid of pipe tiles. A critter enters a tile only through one of
    its openings and leaves through the other; starting at the `S` tile it walks
    the loop until it is back. Part one is half the length of the loop; part
    two counts the tiles enclosed by the loop with a scan-line parity rule. */
module Day10Pipes {
  import opened Wrappers

  // ------------------------------------------------------------------ tiles

  datatype MapNode =
    | Empty
    | NorthSouth
    | EastWest
    | NorthEast
    | NorthWest
    | SouthEast
    | SouthWest
    | StartPoint

  datatype Direction = South | North | East | West

  /** `MapNode::from_char`; `None` is the panic on any other character. */
  function FromChar(c: char): (r: Option<MapNode>)
    ensures r.Some? <==> c in {'.', '|', '-', 'L', 'J', '7', 'F', 'S'}
    ensures r.Some? ==> NodeChar(r.value) == c
  {
    match c
    case '.' => Some(Empty)
    case '|' => Some(NorthSouth)
    case '-' => Some(EastWest)
    case 'L' => Some(NorthEast)
    case 'J' => Some(NorthWest)
    case '7' => Some(SouthWest)
    case 'F' => Some(SouthEast)
    case 'S' => Some(StartPoint)
    case _ => None
  }

  /** The puzzle character of a tile: the inverse of `FromChar`. */
  function NodeChar(n: MapNode): char {
    match n
    case Empty => '.'
    case NorthSouth => '|'
    case EastWest => '-'
    case NorthEast => 'L'
    case NorthWest => 'J'
    case SouthWest => '7'
    case SouthEast => 'F'
    case StartPoint => 'S'
  }

  lemma FromCharOfNodeChar(n: MapNode)
    ensures FromChar(NodeChar(n)) == Some(n)
  {
  }

  /** The (x, y) offset of one step, `From<&Direction> for (isize, isize)`;
      y grows southwards. */
  function Offset(d: Direction): (int, int) {
    match d
    case East => (1, 0)
    case South => (0, 1)
    case West => (-1, 0)
    case North => (0, -1)
  }

  function Opposite(d: Direction): Direction {
    match d
    case East => West
    case West => East
    case North => South
    case South => North
  }

  /** The sides on which a tile has a pipe end. */
  predicate Opens(n: MapNode, d: Direction) {
    match n
    case NorthSouth => d == North || d == South
    case EastWest => d == East || d == West
    case NorthEast => d == North || d == East
    case NorthWest => d == North || d == West
    case SouthEast => d == South || d == East
    case SouthWest => d == South || d == West
    case _ => false
  }

  /** The transition table of `get_next_position`: the direction in which a
      critter travelling in `dir` leaves tile `n`, or `None` when it cannot
      enter. A pipe is entered through the side facing the critter and left
      through its other end; the start tile is crossed straight. */
  function Turn(dir: Direction, n: MapNode): (r: Option<Direction>)
    ensures r.Some? <==> n == StartPoint || Opens(n, Opposite(dir))
    ensures n == StartPoint ==> r == Some(dir)
    ensures r.Some? && n != StartPoint ==>
      Opens(n, r.value) && r.value != Opposite(dir)
  {
    match dir
    case East =>
      (match n
       case EastWest => Some(East)
       case NorthWest => Some(North)
       case SouthWest => Some(South)
       case StartPoint => Some(East)
       case _ => None)
    case South =>
      (match n
       case NorthSouth => Some(South)
       case NorthEast => Some(East)
       case NorthWest => Some(West)
       case StartPoint => Some(South)
       case _ => None)
    case West =>
      (match n
       case EastWest => Some(West)
       case NorthEast => Some(North)
       case SouthEast => Some(South)
       case StartPoint => Some(West)
       case _ => None)
    case North =>
      (match n
       case NorthSouth => Some(North)
       case SouthEast => Some(East)
       case SouthWest => Some(West)
       case StartPoint => Some(North)
       case _ => None)
  }

  // -------------------------------------------------------------------- map

  /** A position (x, y): column, then row. */
  type Pos = (nat, nat)

  datatype PipeMap = PipeMap(grid: seq<seq<MapNode>>, start: Pos)

  /** `Vec::get`. */
  function At<T>(s: seq<T>, i: nat): Option<T> {
    if i < |s| then Some(s[i]) else None
  }

  /** `Map::get`: row `y`, then column `x`. */
  function Get(m: PipeMap, x: nat, y: nat): (r: Option<MapNode>)
    ensures r.None? <==> y >= |m.grid| || x >= |m.grid[y]|
    ensures r.Some? ==> r.value == m.grid[y][x]
  {
    match At(m.grid, y)
    case None => None
    case Some(row) => At(row, x)
  }

  /** `usize::saturating_add_signed` (the upper end of `usize` is not modelled). */
  function Shift(v: nat, offset: int): nat {
    if v + offset < 0 then 0 else v + offset
  }

  datatype MoveError = OffTheMap | CannotEnter

  /** `Map::get_next_position`: one step from (x, y) in `dir`. */
  function NextPosition(m: PipeMap, x: nat, y: nat, dir: Direction): (r: Result<(Pos, Direction), MoveError>)
    ensures r == Err(OffTheMap) <==> (dir == West && x == 0) || (dir == North && y == 0)
    ensures r.Ok? ==>
      r.value.0.0 == x + Offset(dir).0 && r.value.0.1 == y + Offset(dir).1
    ensures r.Ok? ==>
      var tile := Get(m, r.value.0.0, r.value.0.1);
      tile.Some? &&
      (tile.value == StartPoint ==> r.value.1 == dir) &&
      (tile.value != StartPoint ==>
         Opens(tile.value, Opposite(dir)) && Opens(tile.value, r.value.1) && r.value.1 != Opposite(dir))
    ensures
      var nx, ny := x + Offset(dir).0, y + Offset(dir).1;
      nx >= 0 && ny >= 0 && (nx, ny) != (x, y) && Get(m, nx, ny).Some? &&
      (Get(m, nx, ny).value == StartPoint || Opens(Get(m, nx, ny).value, Opposite(dir)))
      ==> r.Ok?
  {
    var (dx, dy) := Offset(dir);
    var nx := Shift(x, dx);
    var ny := Shift(y, dy);
    if nx == x && ny == y then Err(OffTheMap)
    else
      match Get(m, nx, ny)
      case None => Err(CannotEnter)
      case Some(node) =>
        match Turn(dir, node)
        case None => Err(CannotEnter)
        case Some(d) => Ok(((nx, ny), d))
  }

  // ---------------------------------------------------------------- parsing

  predicate ValidLine(line: string) {
    forall x :: 0 <= x < |line| ==> FromChar(line[x]).Some?
  }

  predicate ValidChars(lines: seq<string>) {
    forall y :: 0 <= y < |lines| ==> ValidLine(lines[y])
  }

  /** The tiles of one line. */
  function GridRow(line: string): (r: seq<MapNode>)
    requires ValidLine(line)
    ensures |r| == |line|
    ensures forall x :: 0 <= x < |r| ==> NodeChar(r[x]) == line[x]
  {
    seq(|line|, x requires 0 <= x < |line| => FromChar(line[x]).value)
  }

  function Grid(lines: seq<string>): (r: seq<seq<MapNode>>)
    requires ValidChars(lines)
    ensures |r| == |lines|
  {
    seq(|lines|, y requires 0 <= y < |lines| => GridRow(lines[y]))
  }

  predicate IsStartCell(lines: seq<string>, q: Pos) {
    q.1 < |lines| && q.0 < |lines[q.1]| && lines[q.1][q.0] == 'S'
  }

  /** Row-major order on positions: the order in which `parse` visits them. */
  predicate RowMajorLess(a: Pos, b: Pos) {
    a.1 < b.1 || (a.1 == b.1 && a.0 < b.0)
  }

  /** The value of `start_point` once `parse` has visited every cell before
      column x of row y. */
  function StartAfter(lines: seq<string>, y: nat, x: nat): Pos
    requires y <= |lines| && (x > 0 ==> y < |lines| && x <= |lines[y]|)
    decreases y, x
  {
    if x > 0 then
      if lines[y][x - 1] == 'S' then (x - 1, y) else StartAfter(lines, y, x - 1)
    else if y > 0 then StartAfter(lines, y - 1, |lines[y - 1]|)
    else (0, 0)
  }

  function LastStart(lines: seq<string>): Pos {
    StartAfter(lines, |lines|, 0)
  }

  function ParsedMap(lines: seq<string>): PipeMap
    requires ValidChars(lines)
  {
    PipeMap(Grid(lines), LastStart(lines))
  }

  lemma {:induction false} StartAfterIsLast(lines: seq<string>, y: nat, x: nat)
    requires y <= |lines| && (x > 0 ==> y < |lines| && x <= |lines[y]|)
    ensures var s := StartAfter(lines, y, x);
      (s == (0, 0) || (IsStartCell(lines, s) && RowMajorLess(s, (x, y)))) &&
      forall q :: IsStartCell(lines, q) && RowMajorLess(q, (x, y)) ==>
        IsStartCell(lines, s) && !RowMajorLess(s, q)
    decreases y, x
  {
    if x > 0 {
      StartAfterIsLast(lines, y, x - 1);
    } else if y > 0 {
      StartAfterIsLast(lines, y - 1, |lines[y - 1]|);
    }
  }

  /** `start_point` is the last `S` in row-major order, or (0, 0) when the
      map has none. */
  lemma LastStartIsLastS(lines: seq<string>)
    ensures var s := LastStart(lines);
      (IsStartCell(lines, s) || (s == (0, 0) && forall q :: !IsStartCell(lines, q))) &&
      forall q :: IsStartCell(lines, q) ==> !RowMajorLess(s, q)
  {
    StartAfterIsLast(lines, |lines|, 0);
  }

  /** `Map::parse`. A character outside the tile alphabet is where
      `from_char` panics, so `ValidChars` is required. */
  method ParseMap(lines: seq<string>) returns (m: PipeMap)
    requires ValidChars(lines)
    ensures m == ParsedMap(lines)
  {
    var grid: seq<seq<MapNode>> := [];
    var start: Pos := (0, 0);
    var y := 0;
    while y < |lines|
      invariant 0 <= y <= |lines|
      invariant grid == Grid(lines)[..y]
      invariant start == StartAfter(lines, y, 0)
    {
      var line := lines[y];
      var row: seq<MapNode> := [];
      var x := 0;
      while x < |line|
        invariant 0 <= x <= |line|
        invariant row == GridRow(line)[..x]
        invariant start == StartAfter(lines, y, x)
      {
        var node := FromChar(line[x]).value;
        if node == StartPoint {
          start := (x, y);
        }
        row := row + [node];
        x := x + 1;
      }
      assert row == Grid(lines)[y];
      grid := grid + [row];
      y := y + 1;
    }
    assert grid == Grid(lines);
    m := PipeMap(grid, start);
  }

  // -------------------------------------------------------------- critters

  class Critter {
    var pos: Pos
    var direction: Direction

    constructor (pos: Pos, direction: Direction)
      ensures this.pos == pos && this.direction == direction
    {
      this.pos := pos;
      this.direction := direction;
    }
  }

  /** `Map::move_critter`: one step; the critter is left alone on error. */
  method MoveCritter(m: PipeMap, critter: Critter) returns (r: Result<(), MoveError>)
    modifies critter
    ensures match NextPosition(m, old(critter.pos).0, old(critter.pos).1, old(critter.direction))
      case Ok(step) => r == Ok(()) && critter.pos == step.0 && critter.direction == step.1
      case Err(e) => r == Err(e) && critter.pos == old(critter.pos) && critter.direction == old(critter.direction)
  {
    match NextPosition(m, critter.pos.0, critter.pos.1, critter.direction)
    case Ok((newPos, newDirection)) =>
      critter.pos := newPos;
      critter.direction := newDirection;
      r := Ok(());
    case Err(error) =>
      r := Err(error);
  }

  /** Where a walk ends: the visited set or the error, and the critter's last
      position and direction. */
  datatype WalkEnd = WalkEnd(outcome: Result<set<Pos>, MoveError>, pos: Pos, direction: Direction)

  /** A walk that already visited `route` and then continues as `w`. */
  function Extend(route: set<Pos>, w: WalkEnd): WalkEnd {
    if w.outcome.Ok? then WalkEnd(Ok(route + w.outcome.value), w.pos, w.direction) else w
  }

  lemma ExtendNothing(w: WalkEnd)
    ensures Extend({}, w) == w
  {
    if w.outcome.Ok? {
      assert {} + w.outcome.value == w.outcome.value;
    }
  }

  lemma ExtendTwice(a: set<Pos>, b: set<Pos>, w: WalkEnd)
    ensures Extend(a, Extend(b, w)) == Extend(a + b, w)
  {
    if w.outcome.Ok? {
      assert a + (b + w.outcome.value) == (a + b) + w.outcome.value;
    }
  }

  /** The walk of `move_critter_around` from `pos` in `dir`, allowing at most
      `fuel` moves; `None` when it needs more. */
  function Around(m: PipeMap, pos: Pos, dir: Direction, fuel: nat): Option<WalkEnd>
    decreases fuel
  {
    if fuel == 0 then None
    else
      match NextPosition(m, pos.0, pos.1, dir)
      case Err(e) => Some(WalkEnd(Err(e), pos, dir))
      case Ok((p, d)) =>
        if p == m.start then Some(WalkEnd(Ok({p}), p, d))
        else
          match Around(m, p, d, fuel - 1)
          case None => None
          case Some(w) => Some(Extend({p}, w))
  }

  /** A completed walk ends on the start tile, has visited it, and has
      visited only tiles of the map. */
  lemma {:induction false} AroundEndsAtStart(m: PipeMap, pos: Pos, dir: Direction, fuel: nat)
    requires Around(m, pos, dir, fuel).Some? && Around(m, pos, dir, fuel).value.outcome.Ok?
    ensures var w := Around(m, pos, dir, fuel).value;
      w.pos == m.start && m.start in w.outcome.value &&
      forall q :: q in w.outcome.value ==> Get(m, q.0, q.1).Some?
    decreases fuel
  {
    var step := NextPosition(m, pos.0, pos.1, dir);
    var p := step.value.0;
    if p != m.start {
      AroundEndsAtStart(m, p, step.value.1, fuel - 1);
    }
  }

  /** `Map::move_critter_around`, for a walk that ends within `fuel` moves. */
  method MoveCritterAround(m: PipeMap, critter: Critter, ghost fuel: nat) returns (r: Result<set<Pos>, MoveError>)
    requires Around(m, critter.pos, critter.direction, fuel).Some?
    modifies critter
    ensures Around(m, old(critter.pos), old(critter.direction), fuel) ==
      Some(WalkEnd(r, critter.pos, critter.direction))
  {
    var route: set<Pos> := {};
    ghost var left := fuel;
    ExtendNothing(Around(m, critter.pos, critter.direction, left).value);
    while true
      invariant Around(m, critter.pos, critter.direction, left).Some?
      invariant Around(m, old(critter.pos), old(critter.direction), fuel) ==
        Some(Extend(route, Around(m, critter.pos, critter.direction, left).value))
      decreases left
    {
      ghost var here := Around(m, critter.pos, critter.direction, left);
      ghost var before := route;
      var moved := MoveCritter(m, critter);
      if moved.Err? {
        return Err(moved.error);
      }
      route := route + {critter.pos};
      left := left - 1;
      if critter.pos == m.start {
        break;
      }
      assert here == Some(Extend({critter.pos}, Around(m, critter.pos, critter.direction, left).value));
      ExtendTwice(before, {critter.pos}, Around(m, critter.pos, critter.direction, left).value);
    }
    r := Ok(route);
  }

  /** 0..3: the order in which `get_possible_start_critters` tries directions. */
  function Rank(d: Direction): nat {
    match d
    case East => 0
    case South => 1
    case West => 2
    case North => 3
  }

  /** Strictly increasing in `Rank`: no direction twice, in compass order. */
  predicate InCompassOrder(ds: seq<Direction>) {
    forall i, j :: 0 <= i < j < |ds| ==> Rank(ds[i]) < Rank(ds[j])
  }

  /** The start tile can be left heading `d`. */
  predicate CanLeave(m: PipeMap, d: Direction) {
    NextPosition(m, m.start.0, m.start.1, d).Ok?
  }

  /** The directions among `dirs` in which the start tile can be left. */
  function OpenFrom(m: PipeMap, dirs: seq<Direction>): (r: seq<Direction>)
    ensures forall d :: d in r <==> d in dirs && CanLeave(m, d)
    ensures |r| <= |dirs|
  {
    if dirs == [] then []
    else
      var rest := OpenFrom(m, dirs[1..]);
      if CanLeave(m, dirs[0]) then [dirs[0]] + rest else rest
  }

  const Compass: seq<Direction> := [East, South, West, North]

  function StartDirections(m: PipeMap): seq<Direction> {
    OpenFrom(m, Compass)
  }

  lemma {:induction false} OpenFromKeepsOrder(m: PipeMap, dirs: seq<Direction>)
    requires InCompassOrder(dirs)
    ensures InCompassOrder(OpenFrom(m, dirs))
  {
    if dirs != [] {
      OpenFromKeepsOrder(m, dirs[1..]);
      var rest := OpenFrom(m, dirs[1..]);
      forall d | d in rest
        ensures Rank(dirs[0]) < Rank(d)
      {
        var k :| 0 <= k < |dirs[1..]| && dirs[1..][k] == d;
        assert dirs[k + 1] == d;
      }
      if CanLeave(m, dirs[0]) {
        assert OpenFrom(m, dirs) == [dirs[0]] + rest;
        ConsInCompassOrder(dirs[0], rest);
      }
    }
  }

  lemma ConsInCompassOrder(d: Direction, rest: seq<Direction>)
    requires InCompassOrder(rest) && forall e :: e in rest ==> Rank(d) < Rank(e)
    ensures InCompassOrder([d] + rest)
  {
    var r := [d] + rest;
    forall i, j | 0 <= i < j < |r|
      ensures Rank(r[i]) < Rank(r[j])
    {
      assert r[j] == rest[j - 1] && rest[j - 1] in rest;
      if i > 0 {
        assert r[i] == rest[i - 1];
      }
    }
  }

  /** The start directions are those in which the start tile can be left,
      in the order East, South, West, North. */
  lemma StartDirectionsInOrder(m: PipeMap)
    ensures var r := StartDirections(m);
      (forall d :: d in r <==> CanLeave(m, d)) &&
      InCompassOrder(r)
  {
    OpenFromKeepsOrder(m, Compass);
    var r := StartDirections(m);
    assert r == OpenFrom(m, Compass);
    forall d | CanLeave(m, d)
      ensures d in r
    {
      assert d in Compass;
    }
  }

  /** `critters` are distinct critters, all at `start`, heading `dirs`. */
  predicate StartedAs(critters: seq<Critter>, start: Pos, dirs: seq<Direction>)
    reads critters
  {
    |critters| == |dirs| &&
    (forall j :: 0 <= j < |critters| ==> critters[j].pos == start && critters[j].direction == dirs[j]) &&
    (forall a, b :: 0 <= a < b < |critters| ==> critters[a] != critters[b])
  }

  lemma StartedPush(critters: seq<Critter>, start: Pos, dirs: seq<Direction>, c: Critter, d: Direction)
    requires StartedAs(critters, start, dirs) && c !in critters
    requires c.pos == start && c.direction == d
    ensures StartedAs(critters + [c], start, dirs + [d])
  {
  }

  /** `Map::get_possible_start_critters`: one new critter at the start per
      start direction, in order. */
  method StartCritters(m: PipeMap) returns (critters: seq<Critter>)
    ensures StartedAs(critters, m.start, StartDirections(m))
    ensures forall i :: 0 <= i < |critters| ==> fresh(critters[i])
  {
    var found: seq<Critter> := [];
    ghost var dirs: seq<Direction> := [];
    var i := 0;
    while i < |Compass|
      invariant 0 <= i <= |Compass|
      invariant dirs == OpenFrom(m, Compass[..i])
      invariant StartedAs(found, m.start, dirs)
      invariant forall j :: 0 <= j < |found| ==> fresh(found[j])
    {
      CompassStep(m, i);
      found, dirs := SpawnIfOpen(m, found, dirs, Compass[i]);
      i := i + 1;
    }
    assert Compass[..|Compass|] == Compass;
    critters := found;
  }

  /** One round of `get_possible_start_critters`: a new critter heading
      `direction` joins `found` when the start can be left that way. */
  method SpawnIfOpen(m: PipeMap, found: seq<Critter>, ghost dirs: seq<Direction>, direction: Direction)
    returns (result: seq<Critter>, ghost newDirs: seq<Direction>)
    requires StartedAs(found, m.start, dirs)
    ensures newDirs == dirs + (if CanLeave(m, direction) then [direction] else [])
    ensures StartedAs(result, m.start, newDirs)
    ensures forall j :: 0 <= j < |result| ==> (j < |found| && result[j] == found[j]) || fresh(result[j])
  {
    result, newDirs := found, dirs;
    if CanLeave(m, direction) {
      var critter := new Critter(m.start, direction);
      StartedPush(found, m.start, dirs, critter, direction);
      result, newDirs := found + [critter], dirs + [direction];
    }
  }

  /** The start directions among the first `i + 1` compass points. */
  lemma CompassStep(m: PipeMap, i: nat)
    requires i < |Compass|
    ensures OpenFrom(m, Compass[..i + 1]) ==
      OpenFrom(m, Compass[..i]) + (if CanLeave(m, Compass[i]) then [Compass[i]] else [])
  {
    OpenFromAppend(m, Compass[..i], Compass[i]);
    assert Compass[..i + 1] == Compass[..i] + [Compass[i]];
  }

  /** Filtering a sequence one more element at the end. */
  lemma {:induction false} OpenFromAppend(m: PipeMap, dirs: seq<Direction>, d: Direction)
    ensures OpenFrom(m, dirs + [d]) ==
      OpenFrom(m, dirs) + (if CanLeave(m, d) then [d] else [])
  {
    if dirs == [] {
      assert [] + [d] == [d];
      assert [d][1..] == [];
    } else {
      assert (dirs + [d])[1..] == dirs[1..] + [d];
      OpenFromAppend(m, dirs[1..], d);
    }
  }

  // -------------------------------------------------------------- part one

  /** The visited set of the first start direction whose walk completes;
      `None` when none does within `fuel` moves. */
  function FirstRoute(m: PipeMap, dirs: seq<Direction>, fuel: nat): Option<set<Pos>> {
    if dirs == [] then None
    else
      match Around(m, m.start, dirs[0], fuel)
      case None => None
      case Some(w) => if w.outcome.Ok? then Some(w.outcome.value) else FirstRoute(m, dirs[1..], fuel)
  }

  /** Walking from the start in `d` comes back to the start having visited `route`. */
  predicate ClosesWith(m: PipeMap, d: Direction, fuel: nat, route: set<Pos>) {
    var w := Around(m, m.start, d, fuel);
    w.Some? && w.value.outcome == Ok(route) && w.value.pos == m.start
  }

  /** The first completed walk is a loop through the start tile, walked from
      one of the directions tried. */
  lemma {:induction false} FirstRouteIsLoop(m: PipeMap, dirs: seq<Direction>, fuel: nat)
    requires FirstRoute(m, dirs, fuel).Some?
    ensures m.start in FirstRoute(m, dirs, fuel).value
    ensures exists i :: 0 <= i < |dirs| && ClosesWith(m, dirs[i], fuel, FirstRoute(m, dirs, fuel).value)
  {
    var w := Around(m, m.start, dirs[0], fuel).value;
    if w.outcome.Ok? {
      AroundEndsAtStart(m, m.start, dirs[0], fuel);
      assert ClosesWith(m, dirs[0], fuel, FirstRoute(m, dirs, fuel).value);
    } else {
      FirstRouteIsLoop(m, dirs[1..], fuel);
      var i :| 0 <= i < |dirs[1..]| && ClosesWith(m, dirs[1..][i], fuel, FirstRoute(m, dirs[1..], fuel).value);
      assert dirs[i + 1] == dirs[1..][i];
    }
  }

  /** `exercise1::calculate` on the lines of the input: the number of steps to
      the tile of the loop farthest from the start. `ValidChars` excludes the
      `from_char` panic; the route precondition excludes the `unwrap()` panic
      when no start direction closes a loop. */
  method Calculate1(lines: seq<string>, ghost fuel: nat) returns (steps: nat)
    requires ValidChars(lines)
    requires FirstRoute(ParsedMap(lines), StartDirections(ParsedMap(lines)), fuel).Some?
    ensures steps == |FirstRoute(ParsedMap(lines), StartDirections(ParsedMap(lines)), fuel).value| / 2
  {
    var m := ParseMap(lines);
    var critters := StartCritters(m);
    ghost var dirs := StartDirections(m);
    var i := 0;
    while i < |critters|
      invariant 0 <= i <= |critters|
      invariant FirstRoute(m, dirs[i..], fuel) == FirstRoute(m, dirs, fuel)
      invariant forall k :: i <= k < |critters| ==>
        critters[k].pos == m.start && critters[k].direction == dirs[k]
      decreases |critters| - i
    {
      var walked := MoveCritterAround(m, critters[i], fuel);
      if walked.Ok? {
        return |walked.value| / 2;
      }
      assert dirs[i..][1..] == dirs[i + 1..];
      i := i + 1;
    }
    assert false;
  }

  // -------------------------------------------------------------- part two

  /** The tile under `S`, from the two directions in which it can be left;
      `None` is the panic on two equal directions. */
  function StartTile(d1: Direction, d2: Direction): (r: Option<MapNode>)
    ensures r.Some? <==> d1 != d2
    ensures r.Some? ==> forall d :: Opens(r.value, d) <==> d == d1 || d == d2
  {
    match (d1, d2)
    case (East, West) | (West, East) => Some(EastWest)
    case (South, North) | (North, South) => Some(NorthSouth)
    case (North, East) | (East, North) => Some(NorthEast)
    case (North, West) | (West, North) => Some(NorthWest)
    case (South, East) | (East, South) => Some(SouthEast)
    case (South, West) | (West, South) => Some(SouthWest)
    case _ => None
  }

  /** The variables of the scan: tiles counted so far, whether the scan is
      inside the loop, and the last `L` or `F` corner crossed. */
  datatype ScanState = ScanState(count: nat, inLoop: bool, lastCorner: Option<MapNode>)

  /** One visited cell of the scan. A route tile flips `inLoop` when it is a
      vertical pipe or closes a corner pair that crosses the row (`F…J` or
      `L…7`); any other tile is counted when the scan is inside. */
  function ScanCell(s: ScanState, node: MapNode, onRoute: bool, startNode: MapNode): ScanState {
    if onRoute then
      var n := if node == StartPoint then startNode else node;
      match n
      case NorthSouth => s.(inLoop := !s.inLoop)
      case NorthEast => s.(lastCorner := Some(NorthEast))
      case SouthEast => s.(lastCorner := Some(SouthEast))
      case NorthWest => if s.lastCorner == Some(SouthEast) then s.(inLoop := !s.inLoop) else s
      case SouthWest => if s.lastCorner == Some(NorthEast) then s.(inLoop := !s.inLoop) else s
      case _ => s
    else if s.inLoop then s.(count := s.count + 1)
    else s
  }

  /** The scan state after the first `x` cells of row `y`, from `s0`. */
  function ScanRow(row: seq<MapNode>, y: nat, x: nat, route: set<Pos>, startNode: MapNode, s0: ScanState): ScanState
    requires x <= |row|
  {
    if x == 0 then s0
    else ScanCell(ScanRow(row, y, x - 1, route, startNode, s0), row[x - 1], (x - 1, y) in route, startNode)
  }

  /** The scan state after the first `y` rows. Each row starts outside the
      loop; the count and the last corner carry over from the row above. */
  function ScanRows(grid: seq<seq<MapNode>>, y: nat, route: set<Pos>, startNode: MapNode): ScanState
    requires y <= |grid|
  {
    if y == 0 then ScanState(0, false, None)
    else
      var above := ScanRows(grid, y - 1, route, startNode);
      ScanRow(grid[y - 1], y - 1, |grid[y - 1]|, route, startNode, above.(inLoop := false))
  }

  function InsideCount(grid: seq<seq<MapNode>>, route: set<Pos>, startNode: MapNode): nat {
    ScanRows(grid, |grid|, route, startNode).count
  }

  /** The number of cells of the first `x` cells of row `y` that are not on the route. */
  function OffRouteInRow(row: seq<MapNode>, y: nat, x: nat, route: set<Pos>): nat
    requires x <= |row|
  {
    if x == 0 then 0 else OffRouteInRow(row, y, x - 1, route) + (if (x - 1, y) in route then 0 else 1)
  }

  function OffRoute(grid: seq<seq<MapNode>>, y: nat, route: set<Pos>): nat
    requires y <= |grid|
  {
    if y == 0 then 0 else OffRoute(grid, y - 1, route) + OffRouteInRow(grid[y - 1], y - 1, |grid[y - 1]|, route)
  }

  lemma {:induction false} ScanRowCountsOffRoute(row: seq<MapNode>, y: nat, x: nat, route: set<Pos>, startNode: MapNode, s0: ScanState)
    requires x <= |row|
    ensures s0.count <= ScanRow(row, y, x, route, startNode, s0).count <= s0.count + OffRouteInRow(row, y, x, route)
  {
    if x > 0 {
      ScanRowCountsOffRoute(row, y, x - 1, route, startNode, s0);
    }
  }

  /** Only tiles off the loop are counted, each at most once. */
  lemma {:induction false} InsideCountBound(grid: seq<seq<MapNode>>, y: nat, route: set<Pos>, startNode: MapNode)
    requires y <= |grid|
    ensures ScanRows(grid, y, route, startNode).count <= OffRoute(grid, y, route)
  {
    if y > 0 {
      InsideCountBound(grid, y - 1, route, startNode);
      var above := ScanRows(grid, y - 1, route, startNode);
      ScanRowCountsOffRoute(grid[y - 1], y - 1, |grid[y - 1]|, route, startNode, above.(inLoop := false));
    }
  }

  /** A row the loop does not touch counts nothing: the scan never gets inside. */
  lemma {:induction false} UntouchedRowCountsNothing(row: seq<MapNode>, y: nat, x: nat, route: set<Pos>, startNode: MapNode, s0: ScanState)
    requires x <= |row| && !s0.inLoop
    requires forall k :: 0 <= k < x ==> (k, y) !in route
    ensures ScanRow(row, y, x, route, startNode, s0) == s0
  {
    if x > 0 {
      UntouchedRowCountsNothing(row, y, x - 1, route, startNode, s0);
    }
  }

  /** The walk that `exercise2::calculate` takes: from the start, in the first
      start direction. */
  function FirstWalk(m: PipeMap, fuel: nat): Option<WalkEnd>
    requires |StartDirections(m)| >= 1
  {
    Around(m, m.start, StartDirections(m)[0], fuel)
  }

  /** `exercise2::calculate` on the lines of the input: the number of tiles
      the loop encloses, by the scan-line rule of `ScanCell`. The
      preconditions exclude the panics: a character outside the tile
      alphabet, a start without exactly two open directions, and a first walk
      that fails. */
  method Calculate2(lines: seq<string>, ghost fuel: nat) returns (count: nat)
    requires ValidChars(lines)
    requires |StartDirections(ParsedMap(lines))| == 2
    requires FirstWalk(ParsedMap(lines), fuel).Some? && FirstWalk(ParsedMap(lines), fuel).value.outcome.Ok?
    ensures var m := ParsedMap(lines);
      var dirs := StartDirections(m);
      StartTile(dirs[0], dirs[1]).Some? &&
      count == InsideCount(m.grid, FirstWalk(m, fuel).value.outcome.value, StartTile(dirs[0], dirs[1]).value)
  {
    var m := ParseMap(lines);
    var critters := StartCritters(m);
    StartDirectionsInOrder(m);
    var startNode := StartTile(critters[0].direction, critters[1].direction).value;
    var walked := MoveCritterAround(m, critters[0], fuel);
    var route := walked.value;

    count := ScanInside(m.grid, route, startNode);
  }

  /** The scan-line loops of `exercise2::calculate`. */
  method ScanInside(grid: seq<seq<MapNode>>, route: set<Pos>, startNode: MapNode) returns (count: nat)
    ensures count == InsideCount(grid, route, startNode)
  {
    count := 0;
    var lastCorner: Option<MapNode> := None;
    var y := 0;
    while y < |grid|
      invariant 0 <= y <= |grid|
      invariant ScanRows(grid, y, route, startNode).count == count
      invariant ScanRows(grid, y, route, startNode).lastCorner == lastCorner
    {
      var line := grid[y];
      ghost var s0 := ScanState(count, false, lastCorner);
      var inLoop := false;
      var x := 0;
      while x < |line|
        invariant 0 <= x <= |line|
        invariant ScanRow(line, y, x, route, startNode, s0) == ScanState(count, inLoop, lastCorner)
      {
        var node := line[x];
        if (x, y) in route {
          if node == StartPoint {
            node := startNode;
          }
          match node {
            case NorthSouth =>
              inLoop := !inLoop;
            case NorthEast =>
              lastCorner := Some(NorthEast);
            case SouthEast =>
              lastCorner := Some(SouthEast);
            case NorthWest =>
              if lastCorner == Some(SouthEast) {
                inLoop := !inLoop;
              }
            case SouthWest =>
              if lastCorner == Some(NorthEast) {
                inLoop := !inLoop;
              }
            case _ =>
          }
        } else if inLoop {
          count := count + 1;
        }
        x := x + 1;
      }
      y := y + 1;
    }
  }

  // --------------------------------------------------------------- example

  /** The first example grid: a square loop whose start is its top-left corner. */
  function Example(): PipeMap {
    PipeMap([
      [Empty, Empty, Empty, Empty, Empty],
      [Empty, StartPoint, EastWest, SouthWest, Empty],
      [Empty, NorthSouth, Empty, NorthSouth, Empty],
      [Empty, NorthEast, EastWest, NorthWest, Empty],
      [Empty, Empty, Empty, Empty, Empty]
    ], (1, 1))
  }

  lemma ExampleParses()
    ensures ParsedMap([".....", ".S-7.", ".|.|.", ".L-J.", "....."]) == Example()
  {
    var lines := [".....", ".S-7.", ".|.|.", ".L-J.", "....."];
    var g := Example().grid;
    forall y | 0 <= y < 5
      ensures GridRow(lines[y]) == g[y]
    {
      assert |GridRow(lines[y])| == |g[y]|;
      forall x | 0 <= x < 5
        ensures GridRow(lines[y])[x] == g[y][x]
      {
        FromCharOfNodeChar(g[y][x]);
      }
    }
    assert Grid(lines) == g;
    forall q: Pos | IsStartCell(lines, q)
      ensures q == (1, 1)
    {
      assert q.1 < 5 && q.0 < 5;
    }
    LastStartIsLastS(lines);
    assert IsStartCell(lines, (1, 1));
  }

  lemma ExampleStartDirections()
    ensures StartDirections(Example()) == [East, South]
    ensures StartTile(East, South) == Some(SouthEast)
  {
    var m := Example();
    var g := m.grid;
    assert g[0] == [Empty, Empty, Empty, Empty, Empty];
    assert g[1] == [Empty, StartPoint, EastWest, SouthWest, Empty];
    ExampleIsSquare();
    SquareStart(m);
  }

  /** A start at (1, 1) with a horizontal pipe to its east, a vertical one to
      its south and empty ground to its west and north is left east and south. */
  lemma SquareStart(m: PipeMap)
    requires SquareLoop(m) && Get(m, 0, 1) == Some(Empty) && Get(m, 1, 0) == Some(Empty)
    ensures StartDirections(m) == [East, South]
  {
    assert NextPosition(m, 1, 1, West) == Err(CannotEnter);
    assert NextPosition(m, 1, 1, North) == Err(CannotEnter);
    assert CanLeave(m, East) && CanLeave(m, South);
    assert [North][1..] == [];
    assert OpenFrom(m, [North]) == [];
    assert [West, North][1..] == [North];
    assert OpenFrom(m, [West, North]) == [];
    assert [South, West, North][1..] == [West, North];
    assert OpenFrom(m, [South, West, North]) == [South];
    assert Compass[1..] == [South, West, North];
  }

  /** From `pos` heading `dir`, the next tile is `node` at `p`, which is not
      the start, and the walk goes on from there heading `d`. */
  predicate StepsOnto(m: PipeMap, pos: Pos, dir: Direction, p: Pos, node: MapNode, d: Direction) {
    p != m.start && p != pos &&
    p.0 == pos.0 + Offset(dir).0 && p.1 == pos.1 + Offset(dir).1 &&
    Get(m, p.0, p.1) == Some(node) && Turn(dir, node) == Some(d)
  }

  /** One step of a walk that does not reach the start yet. */
  lemma WalkStep(m: PipeMap, pos: Pos, dir: Direction, fuel: nat, p: Pos, node: MapNode, d: Direction, rest: WalkEnd)
    requires fuel > 0 && StepsOnto(m, pos, dir, p, node, d)
    requires Around(m, p, d, fuel - 1) == Some(rest) && rest.outcome.Ok?
    ensures Around(m, pos, dir, fuel) == Some(WalkEnd(Ok({p} + rest.outcome.value), rest.pos, rest.direction))
  {
    assert NextPosition(m, pos.0, pos.1, dir) == Ok((p, d));
  }

  /** The tiles of the example's loop, as far as the walk looks at them. */
  predicate SquareLoop(m: PipeMap) {
    m.start == (1, 1) &&
    Get(m, 1, 1) == Some(StartPoint) && Get(m, 2, 1) == Some(EastWest) &&
    Get(m, 3, 1) == Some(SouthWest) && Get(m, 3, 2) == Some(NorthSouth) &&
    Get(m, 3, 3) == Some(NorthWest) && Get(m, 2, 3) == Some(EastWest) &&
    Get(m, 1, 3) == Some(NorthEast) && Get(m, 1, 2) == Some(NorthSouth)
  }

  lemma ExampleIsSquare()
    ensures SquareLoop(Example())
  {
    var g := Example().grid;
    assert g[1] == [Empty, StartPoint, EastWest, SouthWest, Empty];
    assert g[2] == [Empty, NorthSouth, Empty, NorthSouth, Empty];
    assert g[3] == [Empty, NorthEast, EastWest, NorthWest, Empty];
  }

  /** The last four steps of the walk: north up the left-hand side and along
      the top back to the start. */
  lemma SquareWalkHome(m: PipeMap)
    requires SquareLoop(m)
    ensures Around(m, (3, 3), West, 4) ==
      Some(WalkEnd(Ok({(2, 3)} + ({(1, 3)} + ({(1, 2)} + {(1, 1)}))), (1, 1), North))
  {
    var w1 := WalkEnd(Ok({(1, 1)}), (1, 1), North);
    assert NextPosition(m, 1, 2, North) == Ok(((1, 1), North));
    assert Around(m, (1, 2), North, 1) == Some(w1);
    WalkStep(m, (1, 3), North, 2, (1, 2), NorthSouth, North, w1);
    var w2 := WalkEnd(Ok({(1, 2)} + {(1, 1)}), (1, 1), North);
    WalkStep(m, (2, 3), West, 3, (1, 3), NorthEast, North, w2);
    var w3 := WalkEnd(Ok({(1, 3)} + ({(1, 2)} + {(1, 1)})), (1, 1), North);
    WalkStep(m, (3, 3), West, 4, (2, 3), EastWest, West, w3);
  }

  /** Two more steps in front of a walk that gets home from (3, 3): up the
      right-hand side. */
  lemma SquareWalkSide(m: PipeMap, w4: WalkEnd)
    requires SquareLoop(m)
    requires Around(m, (3, 3), West, 4) == Some(w4) && w4.outcome.Ok?
    ensures Around(m, (3, 1), South, 6) ==
      Some(WalkEnd(Ok({(3, 2)} + ({(3, 3)} + w4.outcome.value)), w4.pos, w4.direction))
  {
    WalkStep(m, (3, 2), South, 5, (3, 3), NorthWest, West, w4);
    var w5 := WalkEnd(Ok({(3, 3)} + w4.outcome.value), w4.pos, w4.direction);
    WalkStep(m, (3, 1), South, 6, (3, 2), NorthSouth, South, w5);
  }

  /** Two more steps in front of a walk that gets home from (3, 1): east from
      the start. */
  lemma SquareWalkOut(m: PipeMap, w6: WalkEnd)
    requires SquareLoop(m)
    requires Around(m, (3, 1), South, 6) == Some(w6) && w6.outcome.Ok?
    ensures Around(m, (1, 1), East, 8) ==
      Some(WalkEnd(Ok({(2, 1)} + ({(3, 1)} + w6.outcome.value)), w6.pos, w6.direction))
  {
    WalkStep(m, (2, 1), East, 7, (3, 1), SouthWest, South, w6);
    var w7 := WalkEnd(Ok({(3, 1)} + w6.outcome.value), w6.pos, w6.direction);
    WalkStep(m, (1, 1), East, 8, (2, 1), EastWest, East, w7);
  }

  /** The walk east from the start closes the loop after eight steps. */
  lemma ExampleWalk()
    ensures Around(Example(), (1, 1), East, 8) == Some(WalkEnd(Ok(ExampleLoop()), (1, 1), North))
  {
    var m := Example();
    ExampleIsSquare();
    SquareWalkHome(m);
    var w4 := WalkEnd(Ok(ExampleHalf()), (1, 1), North);
    SquareWalkSide(m, w4);
    SquareWalkOut(m, WalkEnd(Ok({(3, 2)} + ({(3, 3)} + ExampleHalf())), (1, 1), North));
  }

  /** The eight cells of the example's loop. */
  function ExampleLoop(): set<Pos> {
    {(2, 1)} + ({(3, 1)} + ({(3, 2)} + ({(3, 3)} + ExampleHalf())))
  }

  lemma ExampleLoopSize()
    ensures |ExampleLoop()| == 8
  {
    var r4 := ExampleHalf();
    var r5 := {(3, 3)} + r4;
    AddFresh(r4, (3, 3));
    var r6 := {(3, 2)} + r5;
    AddFresh(r5, (3, 2));
    var r7 := {(3, 1)} + r6;
    AddFresh(r6, (3, 1));
    AddFresh(r7, (2, 1));
  }

  /** The cells the walk visits on its last four steps. */
  function ExampleHalf(): (r: set<Pos>)
    ensures |r| == 4
    ensures forall p :: p in r ==> p.0 < 3 && (p.0 == 1 || p.1 == 3)
  {
    var r1: set<Pos> := {(1, 1)};
    AddFresh(r1, (1, 2));
    var r2 := {(1, 2)} + r1;
    AddFresh(r2, (1, 3));
    var r3 := {(1, 3)} + r2;
    AddFresh(r3, (2, 3));
    {(2, 3)} + r3
  }

  lemma AddFresh(s: set<Pos>, p: Pos)
    requires p !in s
    ensures |{p} + s| == |s| + 1
  {
  }

  /** Part one on the first example: the farthest tile is 4 steps away. */
  lemma ExamplePartOne()
    ensures FirstRoute(Example(), StartDirections(Example()), 8) == Some(ExampleLoop())
    ensures |ExampleLoop()| / 2 == 4
  {
    ExampleStartDirections();
    ExampleWalk();
    ExampleLoopSize();
  }
}
