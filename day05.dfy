/** Day 5 ("If You Give A Seed A Fertilizer"): piecewise-offset remapping of
    seed numbers and of seed ranges through an ordered list of garden maps.

    A rule `(target, source, length)` sends every point of its domain
    `[source, source + length)` to `target + (point - source)`. A garden map is
    a list of rules sorted by `source`, the identity wherever no rule applies.
    `MapRange` splits a range against one rule; `GardenMap.MapRange` folds a
    range through the rules of a map; `MapRanges` and `FoldMaps` push a
    collection of ranges through all the maps. */
module Day5Mapper {
  import opened Wrappers
  import opened Strings

  // ------------------------------------------------------------ data model

  /** The half-open interval `[start, start + length)`. */
  datatype GardenRange = GardenRange(start: nat, length: nat) {
    function End(): nat { start + length }
    predicate Contains(p: int) { start <= p < start + length }
  }

  datatype GardenRule = GardenRule(source: nat, target: nat, length: nat) {
    function SourceEnd(): nat { source + length }
    predicate Covers(n: int) { source <= n < source + length }

    /** Where a point ends up if this rule were the only one: mapped inside
        the domain, unchanged outside it. */
    function Image(n: nat): nat {
      if Covers(n) then target + (n - source) else n
    }
  }

  datatype GardenMap = GardenMap(name: string, rules: seq<GardenRule>)

  /** The relative position of a rule's domain `[ds, de)` and a range
      `[rs, re)`, as `range_ext`'s `intersect_ext` reports it. */
  datatype Intersection = Empty | Less | LessOverlap | Within | Same | Over | GreaterOverlap | Greater

  /** Total number of points in a collection of ranges. */
  function TotalLength(pieces: seq<GardenRange>): nat {
    if pieces == [] then 0 else pieces[0].length + TotalLength(pieces[1..])
  }

  /** Some range of the collection holds `q`. */
  predicate Covered(pieces: seq<GardenRange>, q: int) {
    exists i :: 0 <= i < |pieces| && pieces[i].Contains(q)
  }

  predicate AllPositive(pieces: seq<GardenRange>) {
    forall i :: 0 <= i < |pieces| ==> pieces[i].length > 0
  }

  function OptionLength(r: Option<GardenRange>): nat {
    if r.Some? then r.value.length else 0
  }

  // ------------------------------------------------------ one rule, points

  /** `GardenRule::map`: `checked_sub` of the source, then the length test. */
  function RuleMap(rule: GardenRule, num: nat): (r: Option<nat>)
    ensures r.Some? <==> rule.Covers(num)
    ensures r.Some? ==> r.value == rule.target + (num - rule.source)
  {
    if num < rule.source then None
    else
      var idx := num - rule.source;
      if idx < rule.length then Some(rule.target + idx) else None
  }

  // ------------------------------------------------------ one rule, ranges

  /** The classification of `intersect_ext`, written out. Both intervals
      non-empty, `[ds, de)` the domain, `[rs, re)` the range:
        Less            de <= rs                 (domain wholly below)
        Greater         re <= ds                 (domain wholly above)
        Same            ds == rs && de == re
        LessOverlap     ds <= rs < de < re
        Within          rs < ds && de < re
        GreaterOverlap  rs < ds < re <= de
        Over            ds <= rs && re <= de, not Same
      Shared endpoints go to the arm whose arithmetic leaves no empty piece. */
  function IntersectExt(rule: GardenRule, range: GardenRange): Intersection {
    var ds, de, rs, re := rule.source, rule.SourceEnd(), range.start, range.End();
    if rule.length == 0 || range.length == 0 then Empty
    else if de <= rs then Less
    else if re <= ds then Greater
    else if ds == rs && de == re then Same
    else if ds <= rs && de < re then LessOverlap
    else if rs < ds && de < re then Within
    else if rs < ds then GreaterOverlap
    else Over
  }

  /** `GardenRule::map_range`: the pieces final for this map, and the part of
      the range above the domain, still to be tried against later rules. */
  function MapRange(rule: GardenRule, range: GardenRange): (r: (seq<GardenRange>, Option<GardenRange>))
    // conservation: nothing is lost or duplicated
    ensures rule.length > 0 ==> TotalLength(r.0) + OptionLength(r.1) == range.length
    // an empty domain or an empty range (the catch-all arm) yields nothing
    ensures rule.length == 0 || range.length == 0 ==> r == ([], None)
    ensures AllPositive(r.0)
    // the remainder is a non-empty suffix of the range that lies above the domain
    ensures r.1.Some? ==> r.1.value.length > 0 && r.1.value.End() == range.End()
    ensures r.1.Some? ==> range.start <= r.1.value.start && rule.SourceEnd() <= r.1.value.start
    // a split-off remainder starts exactly at the end of the domain
    ensures r.1.Some? && r.1.value != range ==> r.1.value.start == rule.SourceEnd()
    // the domain lies wholly below the range: the range stays for later rules
    ensures rule.length > 0 && range.length > 0 && rule.SourceEnd() <= range.start ==> r == ([], Some(range))
    // the domain lies wholly above the range: the range passes through unchanged
    ensures rule.length > 0 && range.length > 0 && range.End() <= rule.source ==> r == ([range], None)
  {
    match IntersectExt(rule, range)
    case Less => ([], Some(range))
    case LessOverlap =>
      var idx := range.start - rule.source;
      var mappedLength := rule.length - idx;
      ([GardenRange(rule.target + idx, mappedLength)],
       Some(GardenRange(range.start + mappedLength, range.length - mappedLength)))
    case Within =>
      var idx := rule.source - range.start;
      TotalLengthPair(GardenRange(range.start, idx), GardenRange(rule.target, rule.length));
      ([GardenRange(range.start, idx), GardenRange(rule.target, rule.length)],
       Some(GardenRange(rule.source + rule.length, range.length - rule.length - idx)))
    case Same => ([GardenRange(rule.target, rule.length)], None)
    case GreaterOverlap =>
      var idx := rule.source - range.start;
      var mappedLength := range.length - idx;
      TotalLengthPair(GardenRange(range.start, idx), GardenRange(rule.target, mappedLength));
      ([GardenRange(range.start, idx), GardenRange(rule.target, mappedLength)], None)
    case Greater => ([range], None)
    case Over =>
      var idx := range.start - rule.source;
      ([GardenRange(rule.target + idx, range.length)], None)
    case Empty => ([], None)
  }

  lemma TotalLengthPair(a: GardenRange, b: GardenRange)
    ensures TotalLength([a, b]) == a.length + b.length
  {
    var s := [a, b];
    assert s[1..] == [b] && [b][1..] == [];
    assert TotalLength([b]) == b.length + TotalLength([]);
    assert TotalLength(s) == a.length + TotalLength([b]);
  }

  /** Every point of the range reappears: below the domain's end as its image
      in a resolved piece, at or above it in the remainder. */
  lemma MapRangeCoversImage(rule: GardenRule, range: GardenRange, p: nat)
    requires rule.length > 0 && range.Contains(p)
    ensures p < rule.SourceEnd() ==> Covered(MapRange(rule, range).0, rule.Image(p))
    ensures p >= rule.SourceEnd() ==> MapRange(rule, range).1.Some? && MapRange(rule, range).1.value.Contains(p)
  {
    var ds, de, rs, re := rule.source, rule.SourceEnd(), range.start, range.End();
    var res := MapRange(rule, range).0;
    if de <= rs || re <= ds || (ds == rs && de == re) {
    } else if ds <= rs && de < re {
      if p < de { assert res[0].Contains(rule.Image(p)); }
    } else if rs < ds && de < re {
      if p < ds { assert res[0].Contains(rule.Image(p)); }
      else if p < de { assert res[1].Contains(rule.Image(p)); }
    } else if rs < ds {
      if p < ds { assert res[0].Contains(rule.Image(p)); }
      else { assert res[1].Contains(rule.Image(p)); }
    } else {
      assert res[0].Contains(rule.Image(p));
    }
  }

  /** Nothing else appears: every point of a resolved piece is the image of a
      point of the range below the domain's end. */
  lemma MapRangePiecesAreImages(rule: GardenRule, range: GardenRange, i: nat, q: nat)
    requires i < |MapRange(rule, range).0| && MapRange(rule, range).0[i].Contains(q)
    ensures exists p: nat :: range.Contains(p) && p < rule.SourceEnd() && rule.Image(p) == q
  {
    var ds, de, rs, re := rule.source, rule.SourceEnd(), range.start, range.End();
    var res := MapRange(rule, range).0;
    if re <= ds {
      assert range.Contains(q) && rule.Image(q) == q;
    } else if (ds <= rs && de < re) || (ds == rs && de == re) {
      var p := q - rule.target + ds;
      assert range.Contains(p) && rule.Image(p) == q;
    } else if rs < ds && (de < re || re <= de) && i == 0 {
      assert range.Contains(q) && rule.Image(q) == q;
    } else if rs < ds {
      var p := q - rule.target + ds;
      assert range.Contains(p) && rule.Image(p) == q;
    } else {
      var p := q - rule.target + ds;
      assert range.Contains(p) && rule.Image(p) == q;
    }
  }

  // -------------------------------------------------------- one garden map

  /** Rules sorted by `source` with non-empty, pairwise disjoint domains: the
      shape of every map of a well-formed almanac. The code does not check it. */
  predicate ValidRules(rules: seq<GardenRule>) {
    && (forall i :: 0 <= i < |rules| ==> rules[i].length > 0)
    && (forall i, j :: 0 <= i < j < |rules| ==> rules[i].SourceEnd() <= rules[j].source)
  }

  predicate SortedBySource(rules: seq<GardenRule>) {
    forall i, j :: 0 <= i < j < |rules| ==> rules[i].source <= rules[j].source
  }

  /** `find_map` over the rules: the value of the first rule that maps `num`. */
  function FindMap(rules: seq<GardenRule>, num: nat): (r: Option<nat>)
    ensures r.None? <==> forall i :: 0 <= i < |rules| ==> !rules[i].Covers(num)
    ensures forall i :: 0 <= i < |rules| && rules[i].Covers(num) && (forall j :: 0 <= j < i ==> !rules[j].Covers(num))
              ==> r == Some(rules[i].Image(num))
  {
    if rules == [] then None
    else match RuleMap(rules[0], num)
      case Some(x) => Some(x)
      case None =>
        var r := FindMap(rules[1..], num);
        assert forall i :: 1 <= i < |rules| ==> rules[i] == rules[1..][i - 1];
        r
  }

  /** `GardenMap::map`: the first covering rule's value, else the point itself. */
  function MapPoint(m: GardenMap, num: nat): nat {
    ApplyRules(m.rules, num)
  }

  function ApplyRules(rules: seq<GardenRule>, num: nat): nat {
    match FindMap(rules, num)
    case Some(x) => x
    case None => num
  }

  /** Keeps the non-empty pieces (`filter(|range| range.length > 0)`). */
  function Positive(pieces: seq<GardenRange>): (r: seq<GardenRange>)
    ensures AllPositive(r)
  {
    if pieces == [] then []
    else if pieces[0].length > 0 then [pieces[0]] + Positive(pieces[1..])
    else Positive(pieces[1..])
  }

  /** The fold of `GardenMap::map_range`: the accumulated resolved pieces and
      the remainder still unresolved; a missing remainder skips the rules. */
  function FoldRules(rules: seq<GardenRule>, head: seq<GardenRange>, tail: Option<GardenRange>)
    : (r: (seq<GardenRange>, Option<GardenRange>))
  {
    if rules == [] then (head, tail)
    else match tail
      case None => FoldRules(rules[1..], head, None)
      case Some(range) =>
        var (pieces, rest) := MapRange(rules[0], range);
        FoldRules(rules[1..], head + Positive(pieces), rest)
  }

  /** `GardenMap::map_range`. */
  function MapRangeInMap(m: GardenMap, range: GardenRange): (r: (seq<GardenRange>, Option<GardenRange>))
    ensures AllPositive(r.0)
  {
    FoldRulesPositive(m.rules, [], Some(range));
    FoldRules(m.rules, [], Some(range))
  }

  /** `exercise2::to_vec`: the resolved pieces followed by the remainder. */
  function ToVec(mapResult: (seq<GardenRange>, Option<GardenRange>)): seq<GardenRange> {
    if mapResult.1.Some? then mapResult.0 + [mapResult.1.value] else mapResult.0
  }

  lemma {:induction false} FoldRulesPositive(rules: seq<GardenRule>, head: seq<GardenRange>, tail: Option<GardenRange>)
    requires AllPositive(head)
    ensures AllPositive(FoldRules(rules, head, tail).0)
    decreases |rules|
  {
    if rules != [] {
      match tail
      case None => FoldRulesPositive(rules[1..], head, None);
      case Some(range) =>
        var (pieces, rest) := MapRange(rules[0], range);
        FoldRulesPositive(rules[1..], head + Positive(pieces), rest);
    }
  }

  /** Once the remainder is gone, later rules are not consulted. */
  lemma {:induction false} FoldRulesStopsWithoutRemainder(rules: seq<GardenRule>, head: seq<GardenRange>)
    ensures FoldRules(rules, head, None) == (head, None)
    decreases |rules|
  {
    if rules != [] { FoldRulesStopsWithoutRemainder(rules[1..], head); }
  }

  /** The accumulator only ever grows at the end. */
  lemma {:induction false} FoldRulesAppends(rules: seq<GardenRule>, head: seq<GardenRange>, tail: Option<GardenRange>)
    ensures FoldRules(rules, head, tail).0 == head + FoldRules(rules, [], tail).0
    ensures FoldRules(rules, head, tail).1 == FoldRules(rules, [], tail).1
    decreases |rules|
  {
    if rules != [] {
      match tail
      case None =>
        FoldRulesAppends(rules[1..], head, None);
      case Some(range) =>
        var (pieces, rest) := MapRange(rules[0], range);
        FoldRulesAppends(rules[1..], head + Positive(pieces), rest);
        FoldRulesAppends(rules[1..], Positive(pieces), rest);
        assert [] + Positive(pieces) == Positive(pieces);
        assert head + Positive(pieces) + FoldRules(rules[1..], [], rest).0
            == head + (Positive(pieces) + FoldRules(rules[1..], [], rest).0);
    }
  }

  /** A map's output for one range: its resolved pieces and its remainder. */
  function StageOut(rules: seq<GardenRule>, range: GardenRange): seq<GardenRange> {
    ToVec(FoldRules(rules, [], Some(range)))
  }

  /** One step of the fold, unrolled: the first rule's pieces, then what the
      remaining rules make of its remainder. */
  lemma StageOutUnfold(rules: seq<GardenRule>, range: GardenRange)
    requires rules != []
    ensures var (pieces, rest) := MapRange(rules[0], range);
      StageOut(rules, range) == Positive(pieces) + (if rest.Some? then StageOut(rules[1..], rest.value) else [])
  {
    var (pieces, rest) := MapRange(rules[0], range);
    assert [] + Positive(pieces) == Positive(pieces);
    assert FoldRules(rules, [], Some(range)) == FoldRules(rules[1..], Positive(pieces), rest);
    FoldRulesAppends(rules[1..], Positive(pieces), rest);
    var later := FoldRules(rules[1..], [], rest);
    if rest.None? {
      FoldRulesStopsWithoutRemainder(rules[1..], []);
      assert later == ([], None);
      assert Positive(pieces) + [] == Positive(pieces);
    } else if later.1.Some? {
      assert Positive(pieces) + later.0 + [later.1.value] == Positive(pieces) + (later.0 + [later.1.value]);
    }
  }

  lemma {:induction false} TotalLengthAppend(a: seq<GardenRange>, b: seq<GardenRange>)
    ensures TotalLength(a + b) == TotalLength(a) + TotalLength(b)
  {
    if a == [] {
      assert a + b == b;
    } else {
      assert (a + b)[1..] == a[1..] + b;
      TotalLengthAppend(a[1..], b);
    }
  }

  lemma {:induction false} PositiveKeepsPoints(pieces: seq<GardenRange>)
    ensures TotalLength(Positive(pieces)) == TotalLength(pieces)
    ensures forall q :: Covered(Positive(pieces), q) <==> Covered(pieces, q)
  {
    if pieces != [] {
      PositiveKeepsPoints(pieces[1..]);
      forall q ensures Covered(Positive(pieces), q) <==> Covered(pieces, q) {
        CoveredCons(pieces, q);
        if pieces[0].length > 0 { CoveredCons(Positive(pieces), q); }
      }
    }
  }

  lemma CoveredCons(pieces: seq<GardenRange>, q: int)
    requires pieces != []
    ensures Covered(pieces, q) <==> pieces[0].Contains(q) || Covered(pieces[1..], q)
  {
    if Covered(pieces[1..], q) {
      var i :| 0 <= i < |pieces[1..]| && pieces[1..][i].Contains(q);
      assert pieces[i + 1].Contains(q);
    }
    if Covered(pieces, q) && !pieces[0].Contains(q) {
      var i :| 0 <= i < |pieces| && pieces[i].Contains(q);
      assert pieces[1..][i - 1].Contains(q);
    }
  }

  lemma CoveredAppend(a: seq<GardenRange>, b: seq<GardenRange>, q: int)
    ensures Covered(a + b, q) <==> Covered(a, q) || Covered(b, q)
  {
    if Covered(a + b, q) {
      var i :| 0 <= i < |a + b| && (a + b)[i].Contains(q);
      if i >= |a| { assert b[i - |a|].Contains(q); }
    }
    if Covered(a, q) {
      var i :| 0 <= i < |a| && a[i].Contains(q);
      assert (a + b)[i].Contains(q);
    }
    if Covered(b, q) {
      var i :| 0 <= i < |b| && b[i].Contains(q);
      assert (a + b)[|a| + i].Contains(q);
    }
  }

  /** Below every domain of a valid map a point is left alone. */
  lemma BelowFirstRule(rules: seq<GardenRule>, p: nat)
    requires ValidRules(rules) && rules != [] && p < rules[0].source
    ensures FindMap(rules, p).None?
  {
    forall i | 0 <= i < |rules| ensures !rules[i].Covers(p) {
      if i > 0 { assert rules[0].SourceEnd() <= rules[i].source; }
    }
  }

  /** At or above the first domain's end, the first rule plays no part. */
  lemma AboveFirstRule(rules: seq<GardenRule>, p: nat)
    requires rules != [] && rules[0].SourceEnd() <= p
    ensures FindMap(rules, p) == FindMap(rules[1..], p)
  {
  }

  /** The first rule of a valid map decides every point below its domain's end. */
  lemma FirstRuleDecides(rules: seq<GardenRule>, p: nat)
    requires ValidRules(rules) && rules != [] && p < rules[0].SourceEnd()
    ensures ApplyRules(rules, p) == rules[0].Image(p)
  {
    if p < rules[0].source { BelowFirstRule(rules, p); }
  }

  lemma ValidRulesTail(rules: seq<GardenRule>)
    requires ValidRules(rules) && rules != []
    ensures ValidRules(rules[1..])
  {
    var t := rules[1..];
    forall i, j | 0 <= i < j < |t| ensures t[i].SourceEnd() <= t[j].source {
      assert t[i] == rules[i + 1] && t[j] == rules[j + 1];
    }
  }

  /** A map's output holds as many points as its input range, and no empty
      piece when the range is not empty. */
  lemma {:induction false} StageOutLength(rules: seq<GardenRule>, range: GardenRange)
    requires forall i :: 0 <= i < |rules| ==> rules[i].length > 0
    ensures TotalLength(StageOut(rules, range)) == range.length
    ensures range.length > 0 ==> AllPositive(StageOut(rules, range))
    decreases |rules|
  {
    var out := StageOut(rules, range);
    if rules == [] {
      assert out == [range];
      assert [range][1..] == [];
    } else {
      var (pieces, rest) := MapRange(rules[0], range);
      var later := if rest.Some? then StageOut(rules[1..], rest.value) else [];
      StageOutUnfold(rules, range);
      assert out == Positive(pieces) + later;
      if rest.Some? { StageOutLength(rules[1..], rest.value); }
      PositiveKeepsPoints(pieces);
      TotalLengthAppend(Positive(pieces), later);
      if range.length > 0 {
        forall i | 0 <= i < |out| ensures out[i].length > 0 {
          if i >= |Positive(pieces)| { assert out[i] == later[i - |Positive(pieces)|]; }
        }
      }
    }
  }

  /** Every point of the range shows up in the map's output at its image. */
  lemma {:induction false} StageOutCoversImage(rules: seq<GardenRule>, range: GardenRange, p: nat)
    requires ValidRules(rules) && range.Contains(p)
    ensures Covered(StageOut(rules, range), ApplyRules(rules, p))
    decreases |rules|
  {
    var out := StageOut(rules, range);
    if rules == [] {
      assert out == [range];
      assert out[0].Contains(p);
    } else {
      var rule := rules[0];
      var (pieces, rest) := MapRange(rule, range);
      var later := if rest.Some? then StageOut(rules[1..], rest.value) else [];
      StageOutUnfold(rules, range);
      assert out == Positive(pieces) + later;
      MapRangeCoversImage(rule, range, p);
      CoveredAppend(Positive(pieces), later, ApplyRules(rules, p));
      if p < rule.SourceEnd() {
        FirstRuleDecides(rules, p);
        PositiveKeepsPoints(pieces);
      } else {
        AboveFirstRule(rules, p);
        ValidRulesTail(rules);
        StageOutCoversImage(rules[1..], rest.value, p);
      }
    }
  }

  /** Every point of the map's output is the image of a point of the range. */
  lemma {:induction false} StageOutOnlyImages(rules: seq<GardenRule>, range: GardenRange, q: nat)
    requires ValidRules(rules) && Covered(StageOut(rules, range), q)
    ensures exists p: nat :: range.Contains(p) && ApplyRules(rules, p) == q
    decreases |rules|
  {
    var out := StageOut(rules, range);
    if rules == [] {
      assert out == [range];
      var i :| 0 <= i < |out| && out[i].Contains(q);
      assert range.Contains(q) && ApplyRules(rules, q) == q;
    } else {
      var rule := rules[0];
      var (pieces, rest) := MapRange(rule, range);
      var later := if rest.Some? then StageOut(rules[1..], rest.value) else [];
      StageOutUnfold(rules, range);
      assert out == Positive(pieces) + later;
      CoveredAppend(Positive(pieces), later, q);
      PositiveKeepsPoints(pieces);
      if Covered(pieces, q) {
        var i :| 0 <= i < |pieces| && pieces[i].Contains(q);
        MapRangePiecesAreImages(rule, range, i, q);
        var p: nat :| range.Contains(p) && p < rule.SourceEnd() && rule.Image(p) == q;
        FirstRuleDecides(rules, p);
      } else {
        ValidRulesTail(rules);
        StageOutOnlyImages(rules[1..], rest.value, q);
        var p: nat :| rest.value.Contains(p) && ApplyRules(rules[1..], p) == q;
        AboveFirstRule(rules, p);
        assert range.Contains(p) && ApplyRules(rules, p) == q;
      }
    }
  }

  /** The heart of the model: for a map whose rules are sorted and disjoint,
      the output of `map_range` (with its remainder) is exactly the image of
      the range under the point map, point for point, with the same number
      of points and no empty piece. */
  lemma StageOutIsImage(m: GardenMap, range: GardenRange)
    requires ValidRules(m.rules)
    ensures TotalLength(StageOut(m.rules, range)) == range.length
    ensures range.length > 0 ==> AllPositive(StageOut(m.rules, range))
    ensures forall p: nat :: range.Contains(p) ==> Covered(StageOut(m.rules, range), MapPoint(m, p))
    ensures forall q: nat :: Covered(StageOut(m.rules, range), q) ==>
              exists p: nat :: range.Contains(p) && MapPoint(m, p) == q
  {
    StageOutLength(m.rules, range);
    forall p: nat | range.Contains(p) ensures Covered(StageOut(m.rules, range), MapPoint(m, p)) {
      StageOutCoversImage(m.rules, range, p);
    }
    forall q: nat | Covered(StageOut(m.rules, range), q) ensures exists p: nat :: range.Contains(p) && MapPoint(m, p) == q {
      StageOutOnlyImages(m.rules, range, q);
    }
  }

  /** Point/range consistency: a one-point range comes out as the one point
      `GardenMap::map` gives. */
  lemma UnitRangeAgreesWithPoint(m: GardenMap, n: nat)
    requires ValidRules(m.rules)
    ensures StageOut(m.rules, GardenRange(n, 1)) == [GardenRange(MapPoint(m, n), 1)]
  {
    var out := StageOut(m.rules, GardenRange(n, 1));
    StageOutIsImage(m, GardenRange(n, 1));
    assert GardenRange(n, 1).Contains(n);
    var i :| 0 <= i < |out| && out[i].Contains(MapPoint(m, n));
    OnePiece(out, i);
  }

  lemma OnePiece(out: seq<GardenRange>, i: nat)
    requires AllPositive(out) && TotalLength(out) == 1 && i < |out|
    ensures out == [GardenRange(out[i].start, 1)]
  {
    FirstTwoLengths(out);
  }

  lemma FirstTwoLengths(out: seq<GardenRange>)
    ensures |out| >= 2 ==> TotalLength(out) >= out[0].length + out[1].length
  {
    if |out| >= 2 {
      assert out[1..][0] == out[1];
    }
  }

  // ------------------------------------------------- the whole almanac

  /** `exercise2::map_ranges`: `flat_map` of `to_vec(map.map_range(range))`. */
  function MapRanges(ranges: seq<GardenRange>, m: GardenMap): seq<GardenRange> {
    if ranges == [] then []
    else ToVec(MapRangeInMap(m, ranges[0])) + MapRanges(ranges[1..], m)
  }

  /** The fold of `map_ranges` over the maps, in order. */
  function FoldMaps(ranges: seq<GardenRange>, maps: seq<GardenMap>): seq<GardenRange>
    decreases |maps|
  {
    if maps == [] then ranges else FoldMaps(MapRanges(ranges, maps[0]), maps[1..])
  }

  /** The fold of `GardenMap::map` over the maps, in order (exercise 1). */
  function FoldPoint(seed: nat, maps: seq<GardenMap>): nat
    decreases |maps|
  {
    if maps == [] then seed else FoldPoint(MapPoint(maps[0], seed), maps[1..])
  }

  predicate ValidMaps(maps: seq<GardenMap>) {
    forall k :: 0 <= k < |maps| ==> ValidRules(maps[k].rules)
  }

  lemma {:induction false} MapRangesLength(ranges: seq<GardenRange>, m: GardenMap)
    requires ValidRules(m.rules)
    ensures TotalLength(MapRanges(ranges, m)) == TotalLength(ranges)
    ensures AllPositive(ranges) ==> AllPositive(MapRanges(ranges, m))
  {
    if ranges != [] {
      var first := ToVec(MapRangeInMap(m, ranges[0]));
      var others := MapRanges(ranges[1..], m);
      assert first == StageOut(m.rules, ranges[0]);
      StageOutLength(m.rules, ranges[0]);
      MapRangesLength(ranges[1..], m);
      TotalLengthAppend(first, others);
      if AllPositive(ranges) {
        assert AllPositive(ranges[1..]) by {
          forall i | 0 <= i < |ranges[1..]| ensures ranges[1..][i].length > 0 { assert ranges[1..][i] == ranges[i + 1]; }
        }
        forall i | 0 <= i < |first + others| ensures (first + others)[i].length > 0 {
          if i >= |first| { assert (first + others)[i] == others[i - |first|]; }
        }
      }
    }
  }

  lemma {:induction false} MapRangesCoversImage(ranges: seq<GardenRange>, m: GardenMap, p: nat)
    requires ValidRules(m.rules) && Covered(ranges, p)
    ensures Covered(MapRanges(ranges, m), MapPoint(m, p))
  {
    var first := ToVec(MapRangeInMap(m, ranges[0]));
    var others := MapRanges(ranges[1..], m);
    assert first == StageOut(m.rules, ranges[0]);
    CoveredCons(ranges, p);
    CoveredAppend(first, others, MapPoint(m, p));
    if ranges[0].Contains(p) {
      StageOutCoversImage(m.rules, ranges[0], p);
    } else {
      MapRangesCoversImage(ranges[1..], m, p);
    }
  }

  lemma {:induction false} MapRangesOnlyImages(ranges: seq<GardenRange>, m: GardenMap, q: nat)
    requires ValidRules(m.rules) && Covered(MapRanges(ranges, m), q)
    ensures exists p: nat :: Covered(ranges, p) && MapPoint(m, p) == q
  {
    var first := ToVec(MapRangeInMap(m, ranges[0]));
    var others := MapRanges(ranges[1..], m);
    assert first == StageOut(m.rules, ranges[0]);
    CoveredAppend(first, others, q);
    if Covered(first, q) {
      StageOutOnlyImages(m.rules, ranges[0], q);
      var p: nat :| ranges[0].Contains(p) && ApplyRules(m.rules, p) == q;
      CoveredCons(ranges, p);
    } else {
      MapRangesOnlyImages(ranges[1..], m, q);
      var p: nat :| Covered(ranges[1..], p) && MapPoint(m, p) == q;
      CoveredCons(ranges, p);
    }
  }

  /** One map applied to a whole collection: lengths add up, no empty piece
      appears, and the points covered are exactly the images of the points
      covered before. */
  lemma MapRangesIsImage(ranges: seq<GardenRange>, m: GardenMap)
    requires ValidRules(m.rules)
    ensures TotalLength(MapRanges(ranges, m)) == TotalLength(ranges)
    ensures AllPositive(ranges) ==> AllPositive(MapRanges(ranges, m))
    ensures forall q: nat :: Covered(MapRanges(ranges, m), q) <==>
              exists p: nat :: Covered(ranges, p) && MapPoint(m, p) == q
  {
    MapRangesLength(ranges, m);
    forall q: nat ensures Covered(MapRanges(ranges, m), q) <==> exists p: nat :: Covered(ranges, p) && MapPoint(m, p) == q {
      if Covered(MapRanges(ranges, m), q) { MapRangesOnlyImages(ranges, m, q); }
      if exists p: nat :: Covered(ranges, p) && MapPoint(m, p) == q {
        var p: nat :| Covered(ranges, p) && MapPoint(m, p) == q;
        MapRangesCoversImage(ranges, m, p);
      }
    }
  }

  /** The whole pipeline on ranges agrees with the pipeline on points: the
      final collection covers exactly the end points of the seed points, holds
      as many points as the seeds, and has no empty piece. */
  lemma {:induction false} FoldMapsIsImage(ranges: seq<GardenRange>, maps: seq<GardenMap>)
    requires ValidMaps(maps)
    ensures TotalLength(FoldMaps(ranges, maps)) == TotalLength(ranges)
    ensures AllPositive(ranges) ==> AllPositive(FoldMaps(ranges, maps))
    ensures forall q: nat :: Covered(FoldMaps(ranges, maps), q) <==>
              exists p: nat :: Covered(ranges, p) && FoldPoint(p, maps) == q
    decreases |maps|
  {
    if maps != [] {
      var next := MapRanges(ranges, maps[0]);
      MapRangesIsImage(ranges, maps[0]);
      FoldMapsIsImage(next, maps[1..]);
      forall q: nat ensures Covered(FoldMaps(ranges, maps), q) <==> exists p: nat :: Covered(ranges, p) && FoldPoint(p, maps) == q {
        if Covered(FoldMaps(ranges, maps), q) {
          var p1: nat :| Covered(next, p1) && FoldPoint(p1, maps[1..]) == q;
          var p: nat :| Covered(ranges, p) && MapPoint(maps[0], p) == p1;
          assert FoldPoint(p, maps) == q;
        }
        if exists p: nat :: Covered(ranges, p) && FoldPoint(p, maps) == q {
          var p: nat :| Covered(ranges, p) && FoldPoint(p, maps) == q;
          var p1 := MapPoint(maps[0], p);
          assert Covered(next, p1);
        }
      }
    }
  }

  // ------------------------------------------------------------ minimum

  /** `ranges.iter().map(|range| range.start).min()`; `None` for no ranges,
      where the Rust code's `unwrap()` panics. */
  function MinStart(ranges: seq<GardenRange>): (r: Option<nat>)
    ensures r.None? <==> ranges == []
    ensures r.Some? ==> (exists i :: 0 <= i < |ranges| && ranges[i].start == r.value)
    ensures r.Some? ==> forall i :: 0 <= i < |ranges| ==> r.value <= ranges[i].start
  {
    if ranges == [] then None
    else match MinStart(ranges[1..])
      case None => Some(ranges[0].start)
      case Some(m) =>
        assert forall i :: 1 <= i < |ranges| ==> ranges[i] == ranges[1..][i - 1];
        if ranges[0].start <= m then Some(ranges[0].start)
        else
          var i :| 0 <= i < |ranges[1..]| && ranges[1..][i].start == m;
          assert ranges[i + 1].start == m;
          Some(m)
  }

  /** `v` is the smallest end point of the seed points. */
  ghost predicate IsLowestLocation(v: nat, seeds: seq<GardenRange>, maps: seq<GardenMap>) {
    && (exists p: nat :: Covered(seeds, p) && FoldPoint(p, maps) == v)
    && (forall p: nat :: Covered(seeds, p) ==> v <= FoldPoint(p, maps))
  }

  /** The answer of exercise 2: the fold of the ranges, then the least start. */
  function LowestLocationOfRanges(seeds: seq<GardenRange>, maps: seq<GardenMap>): (r: Option<nat>)
    requires ValidMaps(maps) && AllPositive(seeds)
    ensures r.None? <==> seeds == []
    ensures r.Some? ==> IsLowestLocation(r.value, seeds, maps)
  {
    LowestStartIsLowestLocation(seeds, maps);
    MinStart(FoldMaps(seeds, maps))
  }

  lemma LowestStartIsLowestLocation(seeds: seq<GardenRange>, maps: seq<GardenMap>)
    requires ValidMaps(maps) && AllPositive(seeds)
    ensures MinStart(FoldMaps(seeds, maps)).None? <==> seeds == []
    ensures MinStart(FoldMaps(seeds, maps)).Some? ==> IsLowestLocation(MinStart(FoldMaps(seeds, maps)).value, seeds, maps)
  {
    var finals := FoldMaps(seeds, maps);
    FoldMapsIsImage(seeds, maps);
    var r := MinStart(finals);
    if seeds != [] {
      assert seeds[0].Contains(seeds[0].start);
      assert Covered(finals, FoldPoint(seeds[0].start, maps));
      var i :| 0 <= i < |finals| && finals[i].start == r.value;
      assert finals[i].Contains(r.value);
      assert Covered(finals, r.value);
      forall p: nat | Covered(seeds, p) ensures r.value <= FoldPoint(p, maps) {
        assert Covered(finals, FoldPoint(p, maps));
      }
    } else {
      EmptyStaysEmpty(maps);
    }
  }

  lemma {:induction false} EmptyStaysEmpty(maps: seq<GardenMap>)
    ensures FoldMaps([], maps) == []
  {
    if maps != [] { EmptyStaysEmpty(maps[1..]); }
  }

  /** Smallest value of a non-empty sequence (`min().unwrap()`). */
  function MinOf(values: seq<nat>): (r: nat)
    requires values != []
    ensures r in values && forall i :: 0 <= i < |values| ==> r <= values[i]
  {
    if |values| == 1 then values[0]
    else
      var m := MinOf(values[1..]);
      assert forall i :: 1 <= i < |values| ==> values[i] == values[1..][i - 1];
      if values[0] <= m then values[0] else m
  }

  /** The answer of exercise 1: the least end point of the seeds. */
  function LowestLocationOfSeeds(seeds: seq<nat>, maps: seq<GardenMap>): (r: nat)
    requires seeds != []
    ensures exists i :: 0 <= i < |seeds| && FoldPoint(seeds[i], maps) == r
    ensures forall i :: 0 <= i < |seeds| ==> r <= FoldPoint(seeds[i], maps)
  {
    MinOf(Locations(seeds, maps))
  }

  /** Every seed pushed through all the maps (`seeds.map(fold)`). */
  function Locations(seeds: seq<nat>, maps: seq<GardenMap>): (r: seq<nat>)
    ensures |r| == |seeds| && forall i :: 0 <= i < |seeds| ==> r[i] == FoldPoint(seeds[i], maps)
  {
    if seeds == [] then [] else [FoldPoint(seeds[0], maps)] + Locations(seeds[1..], maps)
  }

  /** Each seed as the one-point range `{start: seed, length: 1}`. */
  function UnitRanges(seeds: seq<nat>): (r: seq<GardenRange>)
    ensures |r| == |seeds| && forall i :: 0 <= i < |seeds| ==> r[i] == GardenRange(seeds[i], 1)
  {
    if seeds == [] then [] else [GardenRange(seeds[0], 1)] + UnitRanges(seeds[1..])
  }

  /** Seeds read as one-point ranges give exercise 2 the answer of exercise 1. */
  lemma PointsAsUnitRanges(seeds: seq<nat>, maps: seq<GardenMap>)
    requires seeds != [] && ValidMaps(maps)
    ensures LowestLocationOfRanges(UnitRanges(seeds), maps) == Some(LowestLocationOfSeeds(seeds, maps))
  {
    var ranges := UnitRanges(seeds);
    assert AllPositive(ranges);
    var r := LowestLocationOfRanges(ranges, maps);
    var s := LowestLocationOfSeeds(seeds, maps);
    assert ranges != [];
    var v := r.value;
    assert IsLowestLocation(v, ranges, maps);
    assert s <= v by {
      var p: nat :| Covered(ranges, p) && FoldPoint(p, maps) == v;
      UnitRangesCover(seeds, p);
    }
    assert v <= s by {
      var j :| 0 <= j < |seeds| && FoldPoint(seeds[j], maps) == s;
      UnitRangesCover(seeds, seeds[j]);
    }
  }

  /** The one-point ranges cover exactly the seeds. */
  lemma UnitRangesCover(seeds: seq<nat>, p: nat)
    ensures Covered(UnitRanges(seeds), p) <==> p in seeds
  {
    var ranges := UnitRanges(seeds);
    if p in seeds {
      var i :| 0 <= i < |seeds| && seeds[i] == p;
      assert ranges[i].Contains(p);
    }
  }

  /** The order of the seed ranges does not change the answer. */
  lemma SeedOrderIrrelevant(seeds1: seq<GardenRange>, seeds2: seq<GardenRange>, maps: seq<GardenMap>)
    requires ValidMaps(maps) && AllPositive(seeds1) && AllPositive(seeds2)
    requires multiset(seeds1) == multiset(seeds2)
    ensures LowestLocationOfRanges(seeds1, maps) == LowestLocationOfRanges(seeds2, maps)
  {
    forall p: nat ensures Covered(seeds1, p) <==> Covered(seeds2, p) {
      if Covered(seeds1, p) {
        var i :| 0 <= i < |seeds1| && seeds1[i].Contains(p);
        assert seeds1[i] in multiset(seeds2);
        var j :| 0 <= j < |seeds2| && seeds2[j] == seeds1[i];
      }
      if Covered(seeds2, p) {
        var i :| 0 <= i < |seeds2| && seeds2[i].Contains(p);
        assert seeds2[i] in multiset(seeds1);
        var j :| 0 <= j < |seeds1| && seeds1[j] == seeds2[i];
      }
    }
    if seeds1 != [] {
      assert |seeds2| == |multiset(seeds2)| == |multiset(seeds1)| == |seeds1|;
      var a := LowestLocationOfRanges(seeds1, maps).value;
      var b := LowestLocationOfRanges(seeds2, maps).value;
      var pa: nat :| Covered(seeds1, pa) && FoldPoint(pa, maps) == a;
      var pb: nat :| Covered(seeds2, pb) && FoldPoint(pb, maps) == b;
      assert a <= b && b <= a;
    } else {
      assert |seeds2| == |multiset(seeds2)| == |multiset(seeds1)| == 0;
    }
  }

  // ---------------------------------------------------------- the tests

  /** `test_garden_map_map_range`, first step of the fold: the example map's
      first rule (after sorting) splits `[40, 140)` into an identity piece, a
      mapped piece and a remainder. */
  lemma ExampleFirstRule()
    ensures Positive(MapRange(GardenRule(50, 52, 48), GardenRange(40, 100)).0) == [GardenRange(40, 10), GardenRange(52, 48)]
    ensures MapRange(GardenRule(50, 52, 48), GardenRange(40, 100)).1 == Some(GardenRange(98, 42))
  {
    assert IntersectExt(GardenRule(50, 52, 48), GardenRange(40, 100)) == Within;
    PositiveOfPositive([GardenRange(40, 10), GardenRange(52, 48)]);
  }

  /** Second step: the remainder `[98, 140)` against the second rule gives
      the test's expected output. */
  lemma ExampleSecondRule()
    ensures FoldRules([GardenRule(98, 50, 2)], [GardenRange(40, 10), GardenRange(52, 48)], Some(GardenRange(98, 42)))
         == ([GardenRange(40, 10), GardenRange(52, 48), GardenRange(50, 2)], Some(GardenRange(100, 40)))
  {
    assert IntersectExt(GardenRule(98, 50, 2), GardenRange(98, 42)) == LessOverlap;
    assert MapRange(GardenRule(98, 50, 2), GardenRange(98, 42)) == ([GardenRange(50, 2)], Some(GardenRange(100, 40)));
    PositiveOfPositive([GardenRange(50, 2)]);
    assert [GardenRule(98, 50, 2)][1..] == [];
    assert [GardenRange(40, 10), GardenRange(52, 48)] + [GardenRange(50, 2)]
        == [GardenRange(40, 10), GardenRange(52, 48), GardenRange(50, 2)];
  }

  /** `test_garden_map_map`: the example map, its rules sorted by source as
      `GardenMap::parse` leaves them, maps points below, inside and above
      its two rules. */
  lemma ExampleMapPoints()
    ensures var m := GardenMap("seed-to-soil", [GardenRule(50, 52, 48), GardenRule(98, 50, 2)]);
      MapPoint(m, 49) == 49 && MapPoint(m, 50) == 52 && MapPoint(m, 51) == 53 &&
      MapPoint(m, 96) == 98 && MapPoint(m, 97) == 99 && MapPoint(m, 98) == 50 &&
      MapPoint(m, 99) == 51 && MapPoint(m, 100) == 100
  {
    var rules := [GardenRule(50, 52, 48), GardenRule(98, 50, 2)];
    assert rules[1..] == [GardenRule(98, 50, 2)] && rules[1..][1..] == [];
  }

  /** Filtering out empty pieces keeps a collection that has none. */
  lemma {:induction false} PositiveOfPositive(pieces: seq<GardenRange>)
    requires AllPositive(pieces)
    ensures Positive(pieces) == pieces
  {
    if pieces != [] {
      assert AllPositive(pieces[1..]) by {
        forall i | 0 <= i < |pieces[1..]| ensures pieces[1..][i].length > 0 { assert pieces[1..][i] == pieces[i + 1]; }
      }
      PositiveOfPositive(pieces[1..]);
      assert pieces == [pieces[0]] + pieces[1..];
    }
  }

  // ------------------------------------------------------------- parsing

  /** `GardenRule::parse`: every word a number, exactly three of them, in
      the order target, source, length; `None` where the Rust code panics. */
  function ParseRule(line: string): Option<GardenRule> {
    match ParseNumbers(Words(line))
    case Some(ns) =>
      if |ns| == 3 then Some(GardenRule(source := ns[1], target := ns[0], length := ns[2])) else None
    case None => None
  }

  /** The almanac's text for a rule. */
  function FormatRule(rule: GardenRule): string {
    Join([NatToString(rule.target), NatToString(rule.source), NatToString(rule.length)], " ")
  }

  lemma NumeralHasNoSpace(n: nat)
    ensures NatToString(n) != [] && NoSpace(NatToString(n))
  {
    var s := NatToString(n);
    forall i | 0 <= i < |s| ensures !IsSpace(s[i]) { assert IsDigit(s[i]); }
  }

  /** Parsing a formatted rule gives the rule back. */
  lemma ParseFormatRule(rule: GardenRule)
    ensures ParseRule(FormatRule(rule)) == Some(rule)
  {
    var ws := [NatToString(rule.target), NatToString(rule.source), NatToString(rule.length)];
    NumeralHasNoSpace(rule.target);
    NumeralHasNoSpace(rule.source);
    NumeralHasNoSpace(rule.length);
    WordsOfJoin(ws);
    ParseNatOfNatToString(rule.target);
    ParseNatOfNatToString(rule.source);
    ParseNatOfNatToString(rule.length);
    assert Words(FormatRule(rule)) == ws;
    assert ws[1..][1..] == [ws[2]] && [ws[2]][1..] == [];
    assert ParseNat(ws[2]) == Some(rule.length);
    assert ParseNumbers([]) == Some([]);
    assert [rule.length] + [] == [rule.length];
    assert ParseNumbers([ws[2]]) == Some([rule.length]);
    assert ws[1..][0] == ws[1] && ParseNat(ws[1]) == Some(rule.source);
    assert [rule.source] + [rule.length] == [rule.source, rule.length];
    assert ParseNumbers(ws[1..]) == Some([rule.source, rule.length]);
    assert ParseNat(ws[0]) == Some(rule.target);
    assert [rule.target] + [rule.source, rule.length] == [rule.target, rule.source, rule.length];
    assert ParseNumbers(ws) == Some([rule.target, rule.source, rule.length]);
  }

  /** Index of the first empty line at or after `from`, or `|lines|`. */
  function BlankFrom(lines: seq<string>, from: nat): (i: nat)
    requires from <= |lines|
    ensures from <= i <= |lines|
    ensures forall k :: from <= k < i ==> |lines[k]| > 0
    ensures i < |lines| ==> |lines[i]| == 0
    decreases |lines| - from
  {
    if from == |lines| || |lines[from]| == 0 then from else BlankFrom(lines, from + 1)
  }

  /** Where the block after the one headed at `header` begins: `take_while`
      also consumes the empty line that stops it. */
  function NextBlock(lines: seq<string>, header: nat): (n: nat)
    requires header < |lines|
    ensures header < n <= |lines|
  {
    var e := BlankFrom(lines, header + 1);
    if e < |lines| then e + 1 else e
  }

  predicate RulesParse(lines: seq<string>, lo: nat, hi: nat)
    requires lo <= hi <= |lines|
  {
    forall k :: lo <= k < hi ==> RuleLine(lines, k)
  }

  /** Line `k` is a rule. */
  predicate RuleLine(lines: seq<string>, k: nat)
    requires k < |lines|
  {
    ParseRule(lines[k]).Some?
  }

  /** The rule on line `k`. */
  function RuleOf(lines: seq<string>, k: nat): GardenRule
    requires k < |lines| && RuleLine(lines, k)
  {
    ParseRule(lines[k]).value
  }

  /** The rules of lines `lo .. hi`, in file order. */
  function ParsedRules(lines: seq<string>, lo: nat, hi: nat): (r: seq<GardenRule>)
    requires lo <= hi <= |lines| && RulesParse(lines, lo, hi)
    ensures |r| == hi - lo
    decreases hi
  {
    if lo == hi then [] else ParsedRules(lines, lo, hi - 1) + [RuleOf(lines, hi - 1)]
  }

  /** A block `GardenMap::parse` accepts: a header with a first word, then
      rule lines up to the next empty line. */
  predicate WellFormedBlock(lines: seq<string>, header: nat) {
    && header < |lines|
    && Words(lines[header]) != []
    && RulesParse(lines, header + 1, BlankFrom(lines, header + 1))
  }

  /** `m` is what `GardenMap::parse` builds from the block at `header`: the
      header's first word as its name, and the block's rules sorted by source. */
  ghost predicate IsParsedMap(lines: seq<string>, header: nat, m: GardenMap) {
    && WellFormedBlock(lines, header)
    && m.name == Words(lines[header])[0]
    && SortedBySource(m.rules)
    && multiset(m.rules) == multiset(ParsedRules(lines, header + 1, BlankFrom(lines, header + 1)))
  }

  /** The `sort_by` on `source`, in place. */
  method SortBySource(a: array<GardenRule>)
    modifies a
    ensures SortedBySource(a[..])
    ensures multiset(a[..]) == multiset(old(a[..]))
  {
    var i := 0;
    while i < a.Length
      invariant 0 <= i <= a.Length
      invariant SortedBySource(a[..i])
      invariant multiset(a[..]) == multiset(old(a[..]))
    {
      SinkRule(a, i);
      i := i + 1;
    }
    assert a[..a.Length] == a[..];
  }

  /** One round of the insertion: `a[i]` swaps down past the larger sources
      before it until `a[..i + 1]` is sorted. */
  method SinkRule(a: array<GardenRule>, i: nat)
    requires i < a.Length && SortedBySource(a[..i])
    modifies a
    ensures SortedBySource(a[..i + 1])
    ensures multiset(a[..]) == multiset(old(a[..]))
  {
    var j := i;
    while j > 0 && a[j - 1].source > a[j].source
      invariant 0 <= j <= i
      invariant forall k, l :: 0 <= k < l <= i && k != j && l != j ==> a[k].source <= a[l].source
      invariant forall l :: j < l <= i ==> a[j].source <= a[l].source
      invariant multiset(a[..]) == multiset(old(a[..]))
    {
      Swap(a, j - 1, j);
      j := j - 1;
    }
  }

  method Swap(a: array<GardenRule>, i: nat, j: nat)
    requires i < a.Length && j < a.Length
    modifies a
    ensures a[..] == old(a[..])[i := old(a[j])][j := old(a[i])]
    ensures multiset(a[..]) == multiset(old(a[..]))
  {
    a[i], a[j] := a[j], a[i];
  }

  /** `GardenMap::parse` from the block headed at `lines[header]`; `next` is
      where the line iterator stands afterwards. */
  method ParseGardenMap(lines: seq<string>, header: nat) returns (m: GardenMap, next: nat)
    requires WellFormedBlock(lines, header)
    ensures next == NextBlock(lines, header)
    ensures IsParsedMap(lines, header, m)
  {
    var name := Words(lines[header])[0];
    var end := BlankFrom(lines, header + 1);
    var rules := ParsedRules(lines, header + 1, end);
    next := if end < |lines| then end + 1 else end;
    var a := new GardenRule[|rules|](k requires 0 <= k < |rules| => rules[k]);
    assert a[..] == rules;
    SortBySource(a);
    m := GardenMap(name, a[..]);
  }

  /** The header lines of the blocks from `from` on. */
  function BlockHeaders(lines: seq<string>, from: nat): seq<nat>
    requires from <= |lines|
    decreases |lines| - from
  {
    if from == |lines| then [] else [from] + BlockHeaders(lines, NextBlock(lines, from))
  }

  predicate WellFormedBlocks(lines: seq<string>, from: nat)
    requires from <= |lines|
    decreases |lines| - from
  {
    from == |lines| || (WellFormedBlock(lines, from) && WellFormedBlocks(lines, NextBlock(lines, from)))
  }

  /** The `while lines.peek().is_some()` loop: one map per block, in order. */
  method ParseGardenMaps(lines: seq<string>, from: nat) returns (maps: seq<GardenMap>)
    requires from <= |lines| && WellFormedBlocks(lines, from)
    ensures |maps| == |BlockHeaders(lines, from)|
    ensures forall k :: 0 <= k < |maps| ==> IsParsedMap(lines, BlockHeaders(lines, from)[k], maps[k])
  {
    maps := [];
    var pos := from;
    ghost var done: seq<nat> := [];
    while pos < |lines|
      invariant from <= pos <= |lines|
      invariant WellFormedBlocks(lines, pos)
      invariant BlockHeaders(lines, from) == done + BlockHeaders(lines, pos)
      invariant |maps| == |done|
      invariant forall k :: 0 <= k < |maps| ==> IsParsedMap(lines, done[k], maps[k])
      decreases |lines| - pos
    {
      var m, next := ParseGardenMap(lines, pos);
      assert BlockHeaders(lines, pos) == [pos] + BlockHeaders(lines, next);
      assert done + [pos] + BlockHeaders(lines, next) == done + BlockHeaders(lines, pos);
      ParsedMapsExtend(lines, done, maps, pos, m);
      maps := maps + [m];
      done := done + [pos];
      pos := next;
    }
    assert BlockHeaders(lines, from) == done + [] == done;
  }

  lemma ParsedMapsExtend(lines: seq<string>, done: seq<nat>, maps: seq<GardenMap>, pos: nat, m: GardenMap)
    requires |done| == |maps| && forall k :: 0 <= k < |maps| ==> IsParsedMap(lines, done[k], maps[k])
    requires IsParsedMap(lines, pos, m)
    ensures forall k :: 0 <= k < |maps| + 1 ==> IsParsedMap(lines, (done + [pos])[k], (maps + [m])[k])
  {
    forall k | 0 <= k < |maps| + 1 ensures IsParsedMap(lines, (done + [pos])[k], (maps + [m])[k]) {
      if k < |maps| {
        assert (done + [pos])[k] == done[k] && (maps + [m])[k] == maps[k];
      } else {
        assert (done + [pos])[k] == pos && (maps + [m])[k] == m;
      }
    }
  }

  /** Each word parsed as a number (`map(parse).unwrap()` over the words). */
  function ParseNumbers(ws: seq<string>): Option<seq<nat>> {
    if ws == [] then Some([])
    else
      var head := ParseNat(ws[0]);
      var rest := ParseNumbers(ws[1..]);
      if head.Some? && rest.Some? then Some([head.value] + rest.value) else None
  }

  /** Parsing a list of words succeeds exactly when every word is a number,
      and then yields those numbers in order. */
  lemma {:induction false} ParseNumbersAllOrNothing(ws: seq<string>)
    ensures ParseNumbers(ws).Some? <==> forall i :: 0 <= i < |ws| ==> ParseNat(ws[i]).Some?
    ensures ParseNumbers(ws).Some? ==>
      |ParseNumbers(ws).value| == |ws| && forall i :: 0 <= i < |ws| ==> ParseNat(ws[i]) == Some(ParseNumbers(ws).value[i])
  {
    if ws != [] {
      ParseNumbersAllOrNothing(ws[1..]);
      assert forall i :: 1 <= i < |ws| ==> ws[i] == ws[1..][i - 1];
    }
  }

  /** The seed numbers after `": "` on the first line; `None` where the Rust
      code panics (no `": "`, or a word that is not a number). */
  function SeedNumbers(line: string): Option<seq<nat>> {
    var parts := SplitStr(line, ": ");
    if |parts| < 2 then None else ParseNumbers(Words(parts[1]))
  }

  /** `chunks(2)` of the seed numbers as `(start, length)` ranges. */
  function SeedPairs(nums: seq<nat>): (r: seq<GardenRange>)
    requires |nums| % 2 == 0
    ensures |r| == |nums| / 2
    ensures forall i :: 0 <= i < |r| ==> r[i] == GardenRange(nums[2 * i], nums[2 * i + 1])
    decreases |nums|
  {
    if nums == [] then [] else [GardenRange(nums[0], nums[1])] + SeedPairs(nums[2..])
  }

  /** The maps start after the seed line and the empty line that follows it. */
  function MapsStart(lines: seq<string>): (n: nat)
    ensures n <= |lines|
  {
    if |lines| < 2 then |lines| else 2
  }

  /** Parses the almanac's maps: `maps` are the blocks after the second line,
      one map per block. */
  ghost predicate IsAlmanacMaps(lines: seq<string>, maps: seq<GardenMap>) {
    && |maps| == |BlockHeaders(lines, MapsStart(lines))|
    && forall k :: 0 <= k < |maps| ==> IsParsedMap(lines, BlockHeaders(lines, MapsStart(lines))[k], maps[k])
  }

  /** `exercise1::calculate`: the lowest location of any seed. */
  method Calculate1(lines: seq<string>) returns (lowest: nat, maps: seq<GardenMap>)
    requires |lines| >= 1 && SeedNumbers(lines[0]).Some? && SeedNumbers(lines[0]).value != []
    requires WellFormedBlocks(lines, MapsStart(lines))
    ensures IsAlmanacMaps(lines, maps)
    ensures lowest == LowestLocationOfSeeds(SeedNumbers(lines[0]).value, maps)
  {
    var seeds := SeedNumbers(lines[0]).value;
    maps := ParseGardenMaps(lines, MapsStart(lines));
    lowest := LowestLocationOfSeeds(seeds, maps);
  }

  /** `exercise2::calculate`: the lowest start after pushing the seed ranges
      through every map; `None` where `min().unwrap()` panics. For maps with
      disjoint rules and non-empty seed ranges this is the lowest location of
      any seed point. */
  method Calculate2(lines: seq<string>) returns (lowest: Option<nat>, maps: seq<GardenMap>)
    requires |lines| >= 1 && SeedNumbers(lines[0]).Some? && |SeedNumbers(lines[0]).value| % 2 == 0
    requires WellFormedBlocks(lines, MapsStart(lines))
    ensures IsAlmanacMaps(lines, maps)
    ensures lowest == MinStart(FoldMaps(SeedPairs(SeedNumbers(lines[0]).value), maps))
    ensures var seeds := SeedPairs(SeedNumbers(lines[0]).value);
      ValidMaps(maps) && AllPositive(seeds) ==>
        (lowest.Some? <==> seeds != []) && (lowest.Some? ==> IsLowestLocation(lowest.value, seeds, maps))
  {
    var seeds := SeedPairs(SeedNumbers(lines[0]).value);
    maps := ParseGardenMaps(lines, MapsStart(lines));
    lowest := MinStart(FoldMaps(seeds, maps));
    if ValidMaps(maps) && AllPositive(seeds) {
      LowestStartIsLowestLocation(seeds, maps);
    }
  }
}
