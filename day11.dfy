/** Day 11: Cosmic Expansion. Galaxies (`#`) on a star map drift apart:
    every empty column and every empty row grows by the expansion speed, and
    the answer is the sum of the Manhattan distances between all pairs of
    galaxies after expansion. */
module Day11Galaxies {
  import opened Collections

  /** A galaxy's `(x, y)`: column, then row. */
  type Pos = (nat, nat)

  // ------------------------------------------------------------ galaxies

  /** Row-major order: by row, then by column. */
  predicate Before(a: Pos, b: Pos) {
    a.1 < b.1 || (a.1 == b.1 && a.0 < b.0)
  }

  /** The galaxies of one line from column `x` on, left to right. */
  function RowGalaxies(line: string, y: nat, x: nat): (r: seq<Pos>)
    requires x <= |line|
    ensures forall k :: 0 <= k < |r| ==> r[k].1 == y && x <= r[k].0 < |line| && line[r[k].0] == '#'
    ensures forall c :: x <= c < |line| && line[c] == '#' ==> (c, y) in r
    ensures forall i, j :: 0 <= i < j < |r| ==> r[i].0 < r[j].0
    decreases |line| - x
  {
    if x == |line| then []
    else if line[x] == '#' then [(x, y)] + RowGalaxies(line, y, x + 1)
    else RowGalaxies(line, y, x + 1)
  }

  /** The galaxies of the rows from `y` on. */
  function GalaxiesFrom(lines: seq<string>, y: nat): (r: seq<Pos>)
    requires y <= |lines|
    ensures forall k :: 0 <= k < |r| ==>
      y <= r[k].1 < |lines| && r[k].0 < |lines[r[k].1]| && lines[r[k].1][r[k].0] == '#'
    ensures forall row, c :: y <= row < |lines| && 0 <= c < |lines[row]| && lines[row][c] == '#' ==> (c, row) in r
    ensures forall i, j :: 0 <= i < j < |r| ==> Before(r[i], r[j])
    decreases |lines| - y
  {
    if y == |lines| then []
    else
      var here := RowGalaxies(lines[y], y, 0);
      var rest := GalaxiesFrom(lines, y + 1);
      assert forall i, j :: 0 <= i < |here| <= j < |here + rest| ==> Before((here + rest)[i], (here + rest)[j]);
      here + rest
  }

  /** `get_galaxies`: exactly the positions of the `#`s, in row-major order. */
  function Galaxies(lines: seq<string>): (r: seq<Pos>)
    ensures forall p :: p in r <==> p.1 < |lines| && p.0 < |lines[p.1]| && lines[p.1][p.0] == '#'
    ensures forall i, j :: 0 <= i < j < |r| ==> Before(r[i], r[j])
  {
    GalaxiesFrom(lines, 0)
  }

  // -------------------------------------------------------------- offsets

  /** The columns (rows) in `0..n` that hold no galaxy. */
  function Gaps(occupied: set<nat>, n: nat): nat {
    if n == 0 then 0 else Gaps(occupied, n - 1) + (if n - 1 in occupied then 0 else 1)
  }

  /** `Gaps` counts the unoccupied indices below `n`. */
  lemma {:induction false} GapsCount(occupied: set<nat>, n: nat)
    ensures Gaps(occupied, n) == |set j: nat | j < n && j !in occupied|
  {
    if n > 0 {
      GapsCount(occupied, n - 1);
      var below := set j: nat | j < n - 1 && j !in occupied;
      if n - 1 in occupied {
        assert (set j: nat | j < n && j !in occupied) == below;
      } else {
        assert (set j: nat | j < n && j !in occupied) == below + {n - 1};
      }
    }
  }

  /** The largest element of a non-empty set. */
  ghost function SetMax(s: set<nat>): (m: nat)
    requires s != {}
    ensures m in s && forall x :: x in s ==> x <= m
    decreases |s|
  {
    var x := Pick(s);
    if s == {x} then x
    else
      assert forall y :: y in s ==> y == x || y in s - {x};
      var m := SetMax(s - {x});
      if x < m then m else x
  }

  /** What `get_expansion_offset_for_one_direction` computes: one entry per
      index up to the largest occupied one, `speed` times the number of
      unoccupied indices up to and including it. */
  ghost function Offsets(occupied: set<nat>, speed: nat): seq<nat>
    requires occupied != {}
  {
    seq(SetMax(occupied) + 1, i requires 0 <= i => speed * Gaps(occupied, i + 1))
  }

  /** `galaxy_vectors.iter().max().unwrap()`: the loop over the set. */
  method MaxOf(s: set<nat>) returns (m: nat)
    requires s != {}
    ensures m in s && forall x :: x in s ==> x <= m
  {
    m :| m in s;
    var rest := s - {m};
    while rest != {}
      invariant rest <= s && m in s
      invariant forall x :: x in s && x !in rest ==> x <= m
      decreases |rest|
    {
      var x :| x in rest;
      if m < x {
        m := x;
      }
      rest := rest - {x};
    }
  }

  /** `get_expansion_offset_for_one_direction`: the fold over
      `0..=max` that pushes the last offset, plus `speed` when the index is
      unoccupied. */
  method OneDirectionOffsets(occupied: set<nat>, speed: nat) returns (r: seq<nat>)
    requires occupied != {}
    ensures r == Offsets(occupied, speed)
  {
    var max := MaxOf(occupied);
    assert max == SetMax(occupied);
    r := [];
    var n := 0;
    while n <= max
      invariant n <= max + 1 && |r| == n
      invariant forall i :: 0 <= i < n ==> r[i] == speed * Gaps(occupied, i + 1)
    {
      var last := if r == [] then 0 else r[|r| - 1];
      assert last == speed * Gaps(occupied, n);
      if n in occupied {
        r := r + [last];
      } else {
        assert speed * Gaps(occupied, n + 1) == speed * Gaps(occupied, n) + speed;
        r := r + [last + speed];
      }
      n := n + 1;
    }
  }

  /** The set of the galaxies' columns. */
  function Columns(galaxies: seq<Pos>): (r: set<nat>)
    ensures forall x :: x in r <==> exists k :: 0 <= k < |galaxies| && galaxies[k].0 == x
  {
    if galaxies == [] then {}
    else
      var init := galaxies[..|galaxies| - 1];
      assert forall k :: 0 <= k < |init| ==> init[k] == galaxies[k];
      Columns(init) + {galaxies[|galaxies| - 1].0}
  }

  /** The set of the galaxies' rows. */
  function Rows(galaxies: seq<Pos>): (r: set<nat>)
    ensures forall y :: y in r <==> exists k :: 0 <= k < |galaxies| && galaxies[k].1 == y
  {
    if galaxies == [] then {}
    else
      var init := galaxies[..|galaxies| - 1];
      assert forall k :: 0 <= k < |init| ==> init[k] == galaxies[k];
      Rows(init) + {galaxies[|galaxies| - 1].1}
  }

  /** `get_expansion_offsets`: collects the occupied columns and rows in a
      loop, then computes the offsets of each axis. No galaxies at all is
      where `max().unwrap()` panics. */
  method ExpansionOffsets(galaxies: seq<Pos>, speed: nat) returns (xOffsets: seq<nat>, yOffsets: seq<nat>)
    requires galaxies != []
    ensures xOffsets == Offsets(Columns(galaxies), speed)
    ensures yOffsets == Offsets(Rows(galaxies), speed)
  {
    var xs: set<nat> := {};
    var ys: set<nat> := {};
    for i := 0 to |galaxies|
      invariant xs == Columns(galaxies[..i]) && ys == Rows(galaxies[..i])
    {
      assert galaxies[..i + 1][..i] == galaxies[..i];
      xs := xs + {galaxies[i].0};
      ys := ys + {galaxies[i].1};
    }
    assert galaxies[..|galaxies|] == galaxies;
    assert galaxies[0].0 in xs && galaxies[0].1 in ys;
    xOffsets := OneDirectionOffsets(xs, speed);
    yOffsets := OneDirectionOffsets(ys, speed);
  }

  /** The offsets cover every occupied index. */
  lemma OffsetsLength(occupied: set<nat>, speed: nat)
    requires occupied != {}
    ensures |Offsets(occupied, speed)| - 1 in occupied
    ensures forall x :: x in occupied ==> x < |Offsets(occupied, speed)|
  {
  }

  lemma {:induction false} GapsMonotone(occupied: set<nat>, m: nat, n: nat)
    requires m <= n
    ensures Gaps(occupied, m) <= Gaps(occupied, n) <= Gaps(occupied, m) + (n - m)
    decreases n - m
  {
    if m < n {
      GapsMonotone(occupied, m, n - 1);
    }
  }

  /** The offsets never decrease. */
  lemma OffsetsMonotone(occupied: set<nat>, speed: nat, i: nat, j: nat)
    requires occupied != {} && i <= j < |Offsets(occupied, speed)|
    ensures Offsets(occupied, speed)[i] <= Offsets(occupied, speed)[j]
  {
    GapsMonotone(occupied, i + 1, j + 1);
    MulMonotone(speed, Gaps(occupied, i + 1), Gaps(occupied, j + 1));
  }

  /** An occupied index keeps the previous offset (0 at index 0); an
      unoccupied one adds `speed` to it. */
  lemma OffsetsStep(occupied: set<nat>, speed: nat, i: nat)
    requires occupied != {} && i < |Offsets(occupied, speed)|
    ensures var o := Offsets(occupied, speed);
      o[i] == (if i == 0 then 0 else o[i - 1]) + (if i in occupied then 0 else speed)
  {
  }

  lemma MulMonotone(k: nat, a: nat, b: nat)
    requires a <= b
    ensures k * a <= k * b
  {
  }

  // ------------------------------------------------------------ expansion

  /** `expand`: each galaxy moves right by its column's offset and down by
      its row's offset; count and order are kept. */
  function Expand(galaxies: seq<Pos>, xOffsets: seq<nat>, yOffsets: seq<nat>): (r: seq<Pos>)
    requires forall k :: 0 <= k < |galaxies| ==> galaxies[k].0 < |xOffsets| && galaxies[k].1 < |yOffsets|
    ensures |r| == |galaxies|
    ensures forall k :: 0 <= k < |r| ==>
      r[k] == (galaxies[k].0 + xOffsets[galaxies[k].0], galaxies[k].1 + yOffsets[galaxies[k].1])
  {
    if galaxies == [] then []
    else
      var g := galaxies[0];
      [(g.0 + xOffsets[g.0], g.1 + yOffsets[g.1])] + Expand(galaxies[1..], xOffsets, yOffsets)
  }

  /** Expanded coordinates: an occupied index `i` lands at `i` plus `speed`
      for every empty index before it. */
  lemma ExpandCoordinate(occupied: set<nat>, speed: nat, i: nat)
    requires i in occupied
    ensures i < |Offsets(occupied, speed)|
    ensures Offsets(occupied, speed)[i] == speed * Gaps(occupied, i)
  {
    OffsetsLength(occupied, speed);
    assert Gaps(occupied, i + 1) == Gaps(occupied, i);
  }

  /** Expansion is strictly monotone, so it keeps the relative order of
      columns (rows). */
  lemma ExpandOrder(occupied: set<nat>, speed: nat, i: nat, j: nat)
    requires i in occupied && j in occupied && i < j
    ensures j < |Offsets(occupied, speed)|
    ensures i + Offsets(occupied, speed)[i] < j + Offsets(occupied, speed)[j]
  {
    OffsetsLength(occupied, speed);
    OffsetsMonotone(occupied, speed, i, j);
  }

  /** Between two occupied indices the expanded distance is the original
      distance plus `speed` for each empty index strictly between them. */
  lemma ExpandDistance(occupied: set<nat>, speed: nat, i: nat, j: nat)
    requires i in occupied && j in occupied && i <= j
    ensures var o := Offsets(occupied, speed);
      i < |o| && j < |o| &&
      (j + o[j]) - (i + o[i]) == (j - i) + speed * (Gaps(occupied, j) - Gaps(occupied, i + 1))
  {
    var o := Offsets(occupied, speed);
    OffsetsLength(occupied, speed);
    if i < j {
      GapsMonotone(occupied, i + 1, j);
      assert o[j] == speed * Gaps(occupied, j);
      assert Gaps(occupied, i + 1) == Gaps(occupied, i);
      calc {
        speed * Gaps(occupied, j) - speed * Gaps(occupied, i + 1);
        speed * (Gaps(occupied, j) - Gaps(occupied, i + 1));
      }
    }
  }

  /** Every galaxy's column and row have an offset, so `expand` does not
      index out of bounds. */
  lemma OffsetsFit(galaxies: seq<Pos>, speed: nat)
    requires galaxies != []
    ensures forall k :: 0 <= k < |galaxies| ==>
      galaxies[k].0 < |Offsets(Columns(galaxies), speed)| && galaxies[k].1 < |Offsets(Rows(galaxies), speed)|
  {
    assert galaxies[0].0 in Columns(galaxies) && galaxies[0].1 in Rows(galaxies);
    OffsetsLength(Columns(galaxies), speed);
    OffsetsLength(Rows(galaxies), speed);
    forall k | 0 <= k < |galaxies|
      ensures galaxies[k].0 in Columns(galaxies) && galaxies[k].1 in Rows(galaxies)
    {
    }
  }

  // ------------------------------------------------------------ distances

  function AbsDiff(a: nat, b: nat): nat {
    if a < b then b - a else a - b
  }

  /** Manhattan distance (`abs_diff` on both axes). */
  function Distance(a: Pos, b: Pos): nat {
    AbsDiff(a.0, b.0) + AbsDiff(a.1, b.1)
  }

  /** The distances from `a` to each of `s`. */
  function RowSum(a: Pos, s: seq<Pos>): nat {
    if s == [] then 0 else Distance(a, s[0]) + RowSum(a, s[1..])
  }

  /** `combinations(2)` summed: each galaxy with every later one, so every
      unordered pair once. */
  function PairSum(s: seq<Pos>): nat {
    if s == [] then 0 else RowSum(s[0], s[1..]) + PairSum(s[1..])
  }

  /** The distances over all ordered pairs `(a, b)` with `a` from `s` and `b`
      from `t`. */
  function FullSum(s: seq<Pos>, t: seq<Pos>): nat {
    if s == [] then 0 else RowSum(s[0], t) + FullSum(s[1..], t)
  }

  lemma {:induction false} FullSumCons(s: seq<Pos>, a: Pos, t: seq<Pos>)
    ensures FullSum(s, [a] + t) == RowSum(a, s) + FullSum(s, t)
  {
    if s != [] {
      assert ([a] + t)[1..] == t;
      FullSumCons(s[1..], a, t);
    }
  }

  /** Each unordered pair is counted exactly once: twice the pair sum is the
      sum over all ordered pairs (including each galaxy with itself, at
      distance 0). */
  lemma {:induction false} PairSumHalf(s: seq<Pos>)
    ensures 2 * PairSum(s) == FullSum(s, s)
  {
    if s != [] {
      var a, u := s[0], s[1..];
      assert s == [a] + u;
      PairSumHalf(u);
      FullSumCons(u, a, u);
      calc {
        FullSum(s, s);
        RowSum(a, s) + FullSum(u, s);
        { assert s[1..] == u; }
        Distance(a, a) + RowSum(a, u) + FullSum(u, [a] + u);
        RowSum(a, u) + RowSum(a, u) + FullSum(u, u);
        2 * PairSum(s);
      }
    }
  }

  /** What `exercise1::calculate` computes: the pair sum of the expanded
      galaxies. */
  ghost function Total(lines: seq<string>, speed: nat): nat
    requires Galaxies(lines) != []
  {
    var galaxies := Galaxies(lines);
    OffsetsFit(galaxies, speed);
    PairSum(Expand(galaxies, Offsets(Columns(galaxies), speed), Offsets(Rows(galaxies), speed)))
  }

  /** `exercise1::calculate` on the lines of the map. A map without galaxies
      is where `get_expansion_offsets` panics. */
  method Calculate(lines: seq<string>, speed: nat) returns (total: nat)
    requires Galaxies(lines) != []
    ensures total == Total(lines, speed)
  {
    var galaxies := Galaxies(lines);
    var xOffsets, yOffsets := ExpansionOffsets(galaxies, speed);
    OffsetsFit(galaxies, speed);
    var expanded := Expand(galaxies, xOffsets, yOffsets);
    total := PairSum(expanded);
  }

  // ------------------------------------------------------------- examples

  /** The galaxies the tests list for the example map, (3, 0), (7, 1),
      (0, 2), (6, 4), (1, 5), (9, 6), (7, 8), (0, 9) and (4, 9), occupy
      these columns and rows. */
  lemma ExampleColumnOffsets(speed: nat)
    ensures Offsets({0, 1, 3, 4, 6, 7, 9}, speed)
         == [0, 0, speed, speed, speed, 2 * speed, 2 * speed, 2 * speed, 3 * speed, 3 * speed]
  {
    var occupied: set<nat> := {0, 1, 3, 4, 6, 7, 9};
    assert SetMax(occupied) == 9;
    assert Gaps(occupied, 3) == 1;
    assert Gaps(occupied, 6) == 2;
    assert Gaps(occupied, 9) == 3;
    assert Gaps(occupied, 10) == 3;
  }

  lemma ExampleRowOffsets(speed: nat)
    ensures Offsets({0, 1, 2, 4, 5, 6, 8, 9}, speed)
         == [0, 0, 0, speed, speed, speed, speed, 2 * speed, 2 * speed, 2 * speed]
  {
    var occupied: set<nat> := {0, 1, 2, 4, 5, 6, 8, 9};
    assert SetMax(occupied) == 9;
    assert Gaps(occupied, 3) == 0;
    assert Gaps(occupied, 4) == 1;
    assert Gaps(occupied, 7) == 1;
    assert Gaps(occupied, 8) == 2;
    assert Gaps(occupied, 10) == 2;
  }


  /** The example galaxies moved by the speed 1 offsets of the tests, and
      their pair sum 374. */
  lemma ExamplePairSumSpeedOne()
    ensures PairSum([(4, 0), (9, 1), (0, 2), (8, 5), (1, 6), (12, 7), (9, 10), (0, 11), (5, 11)]) == 374
  {
    var p: seq<Pos> := [(4, 0), (9, 1), (0, 2), (8, 5), (1, 6), (12, 7), (9, 10), (0, 11), (5, 11)];
    assert PairSum(p[8..]) == 0;
    assert RowSum(p[7], p[8..]) == 5;
    assert PairSum(p[7..]) == 5;
    assert RowSum(p[6], p[8..]) == 5;
    assert RowSum(p[6], p[7..]) == 15;
    assert PairSum(p[6..]) == 20;
    assert RowSum(p[5], p[8..]) == 11;
    assert RowSum(p[5], p[7..]) == 27;
    assert RowSum(p[5], p[6..]) == 33;
    assert PairSum(p[5..]) == 53;
    assert RowSum(p[4], p[8..]) == 9;
    assert RowSum(p[4], p[7..]) == 15;
    assert RowSum(p[4], p[6..]) == 27;
    assert RowSum(p[4], p[5..]) == 39;
    assert PairSum(p[4..]) == 92;
    assert RowSum(p[3], p[8..]) == 9;
    assert RowSum(p[3], p[7..]) == 23;
    assert RowSum(p[3], p[6..]) == 29;
    assert RowSum(p[3], p[5..]) == 35;
    assert RowSum(p[3], p[4..]) == 43;
    assert PairSum(p[3..]) == 135;
    assert RowSum(p[2], p[8..]) == 14;
    assert RowSum(p[2], p[7..]) == 23;
    assert RowSum(p[2], p[6..]) == 40;
    assert RowSum(p[2], p[5..]) == 57;
    assert RowSum(p[2], p[4..]) == 62;
    assert RowSum(p[2], p[3..]) == 73;
    assert PairSum(p[2..]) == 208;
    assert RowSum(p[1], p[8..]) == 14;
    assert RowSum(p[1], p[7..]) == 33;
    assert RowSum(p[1], p[6..]) == 42;
    assert RowSum(p[1], p[5..]) == 51;
    assert RowSum(p[1], p[4..]) == 64;
    assert RowSum(p[1], p[3..]) == 69;
    assert RowSum(p[1], p[2..]) == 79;
    assert PairSum(p[1..]) == 287;
    assert RowSum(p[0], p[8..]) == 12;
    assert RowSum(p[0], p[7..]) == 27;
    assert RowSum(p[0], p[6..]) == 42;
    assert RowSum(p[0], p[5..]) == 57;
    assert RowSum(p[0], p[4..]) == 66;
    assert RowSum(p[0], p[3..]) == 75;
    assert RowSum(p[0], p[2..]) == 81;
    assert RowSum(p[0], p[1..]) == 87;
    assert PairSum(p[0..]) == 374;
    assert p[0..] == p;
  }


  /** The same at speed 9: 1030. */
  lemma ExamplePairSumSpeedNine()
    ensures PairSum([(12, 0), (25, 1), (0, 2), (24, 13), (1, 14), (36, 15), (25, 26), (0, 27), (13, 27)]) == 1030
  {
    var p: seq<Pos> := [(12, 0), (25, 1), (0, 2), (24, 13), (1, 14), (36, 15), (25, 26), (0, 27), (13, 27)];
    assert PairSum(p[8..]) == 0;
    assert RowSum(p[7], p[8..]) == 13;
    assert PairSum(p[7..]) == 13;
    assert RowSum(p[6], p[8..]) == 13;
    assert RowSum(p[6], p[7..]) == 39;
    assert PairSum(p[6..]) == 52;
    assert RowSum(p[5], p[8..]) == 35;
    assert RowSum(p[5], p[7..]) == 83;
    assert RowSum(p[5], p[6..]) == 105;
    assert PairSum(p[5..]) == 157;
    assert RowSum(p[4], p[8..]) == 25;
    assert RowSum(p[4], p[7..]) == 39;
    assert RowSum(p[4], p[6..]) == 75;
    assert RowSum(p[4], p[5..]) == 111;
    assert PairSum(p[4..]) == 268;
    assert RowSum(p[3], p[8..]) == 25;
    assert RowSum(p[3], p[7..]) == 63;
    assert RowSum(p[3], p[6..]) == 77;
    assert RowSum(p[3], p[5..]) == 91;
    assert RowSum(p[3], p[4..]) == 115;
    assert PairSum(p[3..]) == 383;
    assert RowSum(p[2], p[8..]) == 38;
    assert RowSum(p[2], p[7..]) == 63;
    assert RowSum(p[2], p[6..]) == 112;
    assert RowSum(p[2], p[5..]) == 161;
    assert RowSum(p[2], p[4..]) == 174;
    assert RowSum(p[2], p[3..]) == 209;
    assert PairSum(p[2..]) == 592;
    assert RowSum(p[1], p[8..]) == 38;
    assert RowSum(p[1], p[7..]) == 89;
    assert RowSum(p[1], p[6..]) == 114;
    assert RowSum(p[1], p[5..]) == 139;
    assert RowSum(p[1], p[4..]) == 176;
    assert RowSum(p[1], p[3..]) == 189;
    assert RowSum(p[1], p[2..]) == 215;
    assert PairSum(p[1..]) == 807;
    assert RowSum(p[0], p[8..]) == 28;
    assert RowSum(p[0], p[7..]) == 67;
    assert RowSum(p[0], p[6..]) == 106;
    assert RowSum(p[0], p[5..]) == 145;
    assert RowSum(p[0], p[4..]) == 170;
    assert RowSum(p[0], p[3..]) == 195;
    assert RowSum(p[0], p[2..]) == 209;
    assert RowSum(p[0], p[1..]) == 223;
    assert PairSum(p[0..]) == 1030;
    assert p[0..] == p;
  }
}
