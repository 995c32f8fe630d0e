/** Day 9: Mirage Maintenance. Each history is extrapolated by repeatedly
    taking differences until a row is all zeros; part one predicts the next
    value, part two the previous one. */
module Day9Mirage {
  import opened Wrappers
  import opened Strings
  import opened Collections

  // ------------------------------------------------------------ differences

  /** `transform`: the differences of neighbouring values (`tuple_windows`),
      one fewer than the values, none for fewer than two. */
  function Diffs(h: seq<int>): (r: seq<int>)
    ensures |r| == if h == [] then 0 else |h| - 1
  {
    DiffsFrom(h, 0)
  }

  /** The differences from index `k` on. */
  function DiffsFrom(h: seq<int>, k: nat): (r: seq<int>)
    ensures |r| == if k + 1 >= |h| then 0 else |h| - 1 - k
    decreases |h| - k
  {
    if k + 1 >= |h| then [] else [h[k + 1] - h[k]] + DiffsFrom(h, k + 1)
  }

  lemma {:induction false} DiffsFromAt(h: seq<int>, k: nat)
    ensures forall i :: 0 <= i < |DiffsFrom(h, k)| ==> DiffsFrom(h, k)[i] == h[k + i + 1] - h[k + i]
    decreases |h| - k
  {
    if k + 1 < |h| {
      DiffsFromAt(h, k + 1);
    }
  }

  lemma DiffsAt(h: seq<int>)
    ensures forall i :: 0 <= i < |Diffs(h)| ==> Diffs(h)[i] == h[i + 1] - h[i]
  {
    DiffsFromAt(h, 0);
  }

  /** `all_equal_value()` is `Ok(0)`: the row is non-empty and all zero. */
  predicate AllZero(h: seq<int>) {
    |h| > 0 && forall i :: 0 <= i < |h| ==> h[i] == 0
  }

  /** `acc + v` on a result that may be a panic (`None`). */
  function Plus(acc: int, o: Option<int>): Option<int> {
    match o
    case Some(v) => Some(acc + v)
    case None => None
  }

  /** `acc - v` on a result that may be a panic (`None`). */
  function Minus(acc: int, o: Option<int>): Option<int> {
    match o
    case Some(v) => Some(acc - v)
    case None => None
  }

  /** `acc + sign * v` for a sign of 1 or -1. */
  function Signed(acc: int, positive: bool, o: Option<int>): Option<int> {
    if positive then Plus(acc, o) else Minus(acc, o)
  }

  /** What `extrapolate_front` computes: the last value plus the prediction
      for the differences, stopping at the first all-zero row. `None` where
      `last().unwrap()` panics, on an empty row. */
  function Front(h: seq<int>): Option<int>
    decreases |h|
  {
    if h == [] then None
    else
      var d := Diffs(h);
      if AllZero(d) then Some(h[|h| - 1]) else Plus(h[|h| - 1], Front(d))
  }

  /** What `extrapolate_back` computes: the first value minus the backward
      prediction for the differences, that is h[0] - d1[0] + d2[0] - ...
      `None` where `history[0]` or `first().unwrap()` panics. */
  function Back(h: seq<int>): Option<int>
    decreases |h|
  {
    if h == [] then None
    else
      var d := Diffs(h);
      if d == [] then None
      else if AllZero(d) then Some(h[0] - d[0])
      else Minus(h[0], Back(d))
  }

  /** `extrapolate_front`: the `loop` with the accumulator. Every pass drops
      one value; the loop ends at an all-zero row or panics on an empty one. */
  method ExtrapolateFront(history: seq<int>) returns (r: Option<int>)
    ensures r == Front(history)
  {
    var acc := 0;
    var h := history;
    while true
      invariant Front(history) == Plus(acc, Front(h))
      decreases |h|
    {
      if h == [] {
        return None;
      }
      acc := acc + h[|h| - 1];
      h := Diffs(h);
      if AllZero(h) {
        break;
      }
    }
    return Some(acc);
  }

  /** `extrapolate_back`: the `loop` with the accumulator and the
      alternating sign. */
  method ExtrapolateBack(history: seq<int>) returns (r: Option<int>)
    ensures r == Back(history)
  {
    if history == [] {
      return None;
    }
    var acc := history[0];
    var sign := -1;
    var h := history;
    while true
      invariant h != [] && (sign == 1 || sign == -1)
      invariant Back(history) == Signed(acc, sign == 1, Minus(h[0], Back(h)))
      decreases |h|
    {
      var d := Diffs(h);
      if d == [] {
        return None;
      }
      acc := acc + sign * d[0];
      if AllZero(d) {
        break;
      }
      sign := -sign;
      h := d;
    }
    return Some(acc);
  }

  // ------------------------------------------------------------ properties

  function Neg(s: seq<int>): (r: seq<int>)
    ensures |r| == |s| && forall i :: 0 <= i < |s| ==> r[i] == -s[i]
  {
    seq(|s|, i requires 0 <= i < |s| => -s[i])
  }

  lemma DiffsReverse(h: seq<int>)
    ensures Diffs(Reverse(h)) == Neg(Reverse(Diffs(h)))
  {
    var l, r := Diffs(Reverse(h)), Neg(Reverse(Diffs(h)));
    DiffsAt(h);
    DiffsAt(Reverse(h));
    forall i | 0 <= i < |l| ensures l[i] == r[i] {
      assert Reverse(h)[i + 1] == h[|h| - 1 - (i + 1)];
      assert l[i] == h[|h| - 2 - i] - h[|h| - 1 - i];
      assert r[i] == -Diffs(h)[|h| - 2 - i];
    }
  }

  lemma DiffsNeg(h: seq<int>)
    ensures Diffs(Neg(h)) == Neg(Diffs(h))
  {
    var l, r := Diffs(Neg(h)), Neg(Diffs(h));
    DiffsAt(h);
    DiffsAt(Neg(h));
    forall i | 0 <= i < |l| ensures l[i] == r[i] {
      assert l[i] == -h[i + 1] + h[i];
    }
  }

  lemma AllZeroNegReverse(d: seq<int>)
    ensures AllZero(Neg(d)) <==> AllZero(d)
    ensures AllZero(Reverse(d)) <==> AllZero(d)
  {
    if AllZero(Reverse(d)) {
      forall i | 0 <= i < |d| ensures d[i] == 0 {
        assert Reverse(d)[|d| - 1 - i] == d[i];
      }
    }
  }

  /** Prediction commutes with negation. */
  lemma {:induction false} FrontNeg(h: seq<int>)
    ensures Front(Neg(h)) == Minus(0, Front(h))
    decreases |h|
  {
    if h != [] {
      DiffsNeg(h);
      var d := Diffs(h);
      AllZeroNegReverse(d);
      if !AllZero(d) {
        FrontNeg(d);
      }
    }
  }

  /** Extrapolating backwards is extrapolating the reversed history
      forwards. */
  lemma {:induction false} BackIsFrontOfReverse(h: seq<int>)
    ensures Back(h) == Front(Reverse(h))
    decreases |h|
  {
    if h != [] {
      var d := Diffs(h);
      DiffsReverse(h);
      assert Diffs(Reverse(h)) == Neg(Reverse(d));
      AllZeroNegReverse(d);
      AllZeroNegReverse(Reverse(d));
      if d != [] && !AllZero(d) {
        BackIsFrontOfReverse(d);
        FrontNeg(Reverse(d));
      }
    }
  }

  /** A constant history of at least two values predicts the same constant
      both ways, after one transform. */
  lemma Constant(h: seq<int>, c: int)
    requires |h| >= 2 && forall i :: 0 <= i < |h| ==> h[i] == c
    ensures Front(h) == Some(c) && Back(h) == Some(c)
  {
    var d := Diffs(h);
    forall i | 0 <= i < |d| ensures d[i] == 0 {
      DiffsAt(h);
      assert d[i] == h[i + 1] - h[i];
    }
    assert AllZero(d);
  }

  /** An arithmetic progression of at least three values predicts its next
      and its previous term. */
  lemma Linear(h: seq<int>, a: int, b: int)
    requires |h| >= 3 && forall i :: 0 <= i < |h| ==> h[i] == a + b * i
    ensures Front(h) == Some(a + b * |h|)
    ensures Back(h) == Some(a - b)
  {
    DiffsOfProgression(h, a, b);
    var last, first := h[|h| - 1], h[0];
    assert last + b == a + b * |h| by {
      assert last == a + b * (|h| - 1);
    }
    assert first == a;
    LinearSteps(h, b);
  }

  /** A history whose differences are a constant `b` of at least two
      values predicts one step of `b` beyond either end. */
  lemma LinearSteps(h: seq<int>, b: int)
    requires |h| >= 3 && forall i :: 0 <= i < |Diffs(h)| ==> Diffs(h)[i] == b
    ensures Front(h) == Some(h[|h| - 1] + b)
    ensures Back(h) == Some(h[0] - b)
  {
    var d := Diffs(h);
    if b == 0 {
      assert AllZero(d);
    } else {
      Constant(d, b);
      assert !AllZero(d) by {
        assert d[0] != 0;
      }
    }
  }

  /** The differences of an arithmetic progression are its step. */
  lemma DiffsOfProgression(h: seq<int>, a: int, b: int)
    requires forall i :: 0 <= i < |h| ==> h[i] == a + b * i
    ensures forall i :: 0 <= i < |Diffs(h)| ==> Diffs(h)[i] == b
  {
    var d := Diffs(h);
    DiffsAt(h);
    forall i | 0 <= i < |d| ensures d[i] == b {
      assert h[i + 1] == a + b * (i + 1) == a + b * i + b;
    }
  }

  // ---------------------------------------------------------- calculation

  /** `parse::<i32>()`: `ParseInt` that fails outside the `i32` range. */
  function ParseI32(s: string): (r: Option<int>)
    ensures r.Some? ==> -0x8000_0000 <= r.value < 0x8000_0000 && r == ParseInt(s)
  {
    var n := ParseInt(s);
    if n.Some? && -0x8000_0000 <= n.value < 0x8000_0000 then n else None
  }

  /** The numbers of a line (`split_whitespace`, then `parse().unwrap()`). */
  function ParseHistory(words: seq<string>): (r: Option<seq<int>>)
    ensures r.Some? <==> forall i :: 0 <= i < |words| ==> ParseI32(words[i]).Some?
    ensures r.Some? ==> |r.value| == |words|
    ensures r.Some? ==> forall i :: 0 <= i < |words| ==> Some(r.value[i]) == ParseI32(words[i])
  {
    if words == [] then Some([])
    else
      match (ParseI32(words[0]), ParseHistory(words[1..]))
      case (Some(n), Some(rest)) => Some([n] + rest)
      case _ => None
  }

  /** One history's prediction in the chosen direction. */
  function Extrapolate(h: seq<int>, backward: bool): Option<int> {
    if backward then Back(h) else Front(h)
  }

  /** One line's prediction: `None` where the line does not parse or the
      extrapolation panics. */
  function LineValue(line: string, backward: bool): (r: Option<int>)
    ensures r.Some? <==> ParseHistory(Words(line)).Some? && Extrapolate(ParseHistory(Words(line)).value, backward).Some?
    ensures r.Some? ==> r == Extrapolate(ParseHistory(Words(line)).value, backward)
  {
    match ParseHistory(Words(line))
    case None => None
    case Some(h) => Extrapolate(h, backward)
  }

  /** `calculate` on the lines: the sum of the predictions. `None` where a
      line does not parse or an extrapolation panics. The `i32` width of the
      sum is not modelled. */
  function Calculate(lines: seq<string>, backward: bool): (r: Option<int>)
    ensures r.Some? <==> forall i :: 0 <= i < |lines| ==> LineValue(lines[i], backward).Some?
    ensures r.Some? && lines != [] ==> r.value == LineValue(lines[0], backward).value + Calculate(lines[1..], backward).value
  {
    if lines == [] then Some(0)
    else
      match (LineValue(lines[0], backward), Calculate(lines[1..], backward))
      case (Some(v), Some(rest)) => Some(v + rest)
      case _ => None
  }

  // ------------------------------------------------------------- examples

  lemma ExampleTransform()
    ensures Diffs([10, 13, 16, 21, 30, 45, 68]) == [3, 3, 5, 9, 15, 23]
  {
    var d := Diffs([10, 13, 16, 21, 30, 45, 68]);
    assert d[0] == 3 && d[1] == 3 && d[2] == 5 && d[3] == 9 && d[4] == 15 && d[5] == 23;
  }

  /** The difference rows of 10 13 16 21 30 45. */
  lemma ExampleRows()
    ensures Diffs([10, 13, 16, 21, 30, 45]) == [3, 3, 5, 9, 15]
    ensures Diffs([3, 3, 5, 9, 15]) == [0, 2, 4, 6]
    ensures Diffs([0, 2, 4, 6]) == [2, 2, 2]
    ensures Diffs([2, 2, 2]) == [0, 0]
  {
    var d1 := Diffs([10, 13, 16, 21, 30, 45]);
    assert d1[0] == 3 && d1[1] == 3 && d1[2] == 5 && d1[3] == 9 && d1[4] == 15;
    var d2 := Diffs([3, 3, 5, 9, 15]);
    assert d2[0] == 0 && d2[1] == 2 && d2[2] == 4 && d2[3] == 6;
    var d3 := Diffs([0, 2, 4, 6]);
    assert d3[0] == 2 && d3[1] == 2 && d3[2] == 2;
    var d4 := Diffs([2, 2, 2]);
    assert d4[0] == 0 && d4[1] == 0;
  }

  lemma ExampleFront()
    ensures Front([10, 13, 16, 21, 30, 45]) == Some(68)
  {
    ExampleRows();
    Linear([0, 2, 4, 6], 0, 2);
    assert !AllZero([0, 2, 4, 6]);
    assert !AllZero([3, 3, 5, 9, 15]);
    assert Front([3, 3, 5, 9, 15]) == Some(23);
  }

  lemma ExampleBack()
    ensures Back([10, 13, 16, 21, 30, 45]) == Some(5)
  {
    ExampleRows();
    Linear([0, 2, 4, 6], 0, 2);
    assert !AllZero([0, 2, 4, 6]);
    assert !AllZero([3, 3, 5, 9, 15]);
    assert Back([3, 3, 5, 9, 15]) == Some(5);
  }

  lemma ExampleBackTriangular()
    ensures Back([1, 3, 6, 10, 15, 21]) == Some(0)
  {
    TriangularRow();
    var d := [2, 3, 4, 5, 6];
    Linear(d, 2, 1);
    assert !AllZero(d);
  }

  /** The difference row of 1 3 6 10 15 21. */
  lemma TriangularRow()
    ensures Diffs([1, 3, 6, 10, 15, 21]) == [2, 3, 4, 5, 6]
  {
    var d := Diffs([1, 3, 6, 10, 15, 21]);
    assert d[0] == 2 && d[1] == 3 && d[2] == 4 && d[3] == 5 && d[4] == 6;
  }
}
