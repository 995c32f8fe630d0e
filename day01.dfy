/** Day 1: Trebuchet. Each line's calibration value is ten times its first
    digit plus its last digit; the answer is the sum over the lines. */
module Day1Trebuchet {
  import opened Wrappers
  import opened Strings
  import opened Collections

  /** `chars[i]` is a digit and no digit comes before it. */
  predicate FirstDigitAt(chars: string, i: int) {
    0 <= i < |chars| && IsDigit(chars[i]) && forall j :: 0 <= j < i ==> !IsDigit(chars[j])
  }

  predicate HasDigit(chars: string) {
    exists i :: 0 <= i < |chars| && IsDigit(chars[i])
  }

  /** `SimpleExtractor::find_first_num`: the value of the first character in
      `'0'..='9'` (`find` then `to_digit(10)`), `None` when there is none. */
  function FindFirstNum(chars: string): (r: Option<nat>)
    ensures r.None? <==> !HasDigit(chars)
    ensures r.Some? ==> r.value < 10
  {
    if chars == [] then None
    else if IsDigit(chars[0]) then Some(DigitValue(chars[0]))
    else
      assert HasDigit(chars[1..]) <==> HasDigit(chars) by {
        if HasDigit(chars[1..]) {
          var i :| 0 <= i < |chars[1..]| && IsDigit(chars[1..][i]);
          assert IsDigit(chars[i + 1]);
        }
        if HasDigit(chars) {
          var i :| 0 <= i < |chars| && IsDigit(chars[i]);
          assert i > 0 && IsDigit(chars[1..][i - 1]);
        }
      }
      FindFirstNum(chars[1..])
  }

  /** The value found is that of the first digit. */
  lemma {:induction false} FindFirstNumAt(chars: string, i: int)
    requires FirstDigitAt(chars, i)
    ensures FindFirstNum(chars) == Some(DigitValue(chars[i]))
  {
    if i > 0 {
      assert chars[1..][i - 1] == chars[i];
      FindFirstNumAt(chars[1..], i - 1);
    }
  }

  /** A line with a digit has a first one. */
  lemma {:induction false} FirstDigitExists(chars: string)
    requires HasDigit(chars)
    ensures exists i :: FirstDigitAt(chars, i)
  {
    if IsDigit(chars[0]) {
      assert FirstDigitAt(chars, 0);
    } else {
      var k :| 0 <= k < |chars| && IsDigit(chars[k]);
      assert IsDigit(chars[1..][k - 1]);
      FirstDigitExists(chars[1..]);
      var i :| FirstDigitAt(chars[1..], i);
      assert FirstDigitAt(chars, i + 1) by {
        forall j | 0 <= j < i + 1 ensures !IsDigit(chars[j]) {
          if j > 0 {
            assert chars[j] == chars[1..][j - 1];
          }
        }
      }
    }
  }

  /** At most one position is the first digit. */
  lemma FirstDigitUnique(chars: string, i: int, k: int)
    requires FirstDigitAt(chars, i) && FirstDigitAt(chars, k)
    ensures i == k
  {
  }

  /** `chars[i]` is a digit and no digit comes after it. */
  predicate LastDigitAt(chars: string, i: int) {
    0 <= i < |chars| && IsDigit(chars[i]) && forall j :: i < j < |chars| ==> !IsDigit(chars[j])
  }

  /** `extract_first_num`: `Err("No number")` exactly when the line has no
      digit, otherwise the first digit (`FirstNumAt`). */
  function ExtractFirstNum(line: string): (r: Result<nat, string>)
    ensures r.Err? <==> !HasDigit(line)
    ensures r.Err? ==> r.error == "No number"
  {
    match FindFirstNum(line)
    case Some(n) => Ok(n)
    case None => Err("No number")
  }

  lemma FirstNumAt(line: string, i: int)
    requires FirstDigitAt(line, i)
    ensures ExtractFirstNum(line) == Ok(DigitValue(line[i]))
  {
    FindFirstNumAt(line, i);
  }

  lemma ReverseHasDigit(line: string)
    ensures HasDigit(Reverse(line)) <==> HasDigit(line)
  {
    var rev := Reverse(line);
    if HasDigit(line) {
      var i :| 0 <= i < |line| && IsDigit(line[i]);
      assert rev[|line| - 1 - i] == line[i];
    }
    if HasDigit(rev) {
      var i :| 0 <= i < |rev| && IsDigit(rev[i]);
      assert rev[i] == line[|line| - 1 - i];
    }
  }

  /** `extract_last_num`: the same scan over the reversed characters;
      `LastNumAt` shows that it finds the last digit. */
  function ExtractLastNum(line: string): (r: Result<nat, string>)
    ensures r.Err? <==> !HasDigit(line)
    ensures r.Err? ==> r.error == "No number"
  {
    ReverseHasDigit(line);
    match FindFirstNum(Reverse(line))
    case Some(n) => Ok(n)
    case None => Err("No number")
  }

  lemma LastNumAt(line: string, k: int)
    requires LastDigitAt(line, k)
    ensures ExtractLastNum(line) == Ok(DigitValue(line[k]))
  {
    var rev := Reverse(line);
    var i := |line| - 1 - k;
    assert FirstDigitAt(rev, i) by {
      assert rev[i] == line[k];
      forall j | 0 <= j < i ensures !IsDigit(rev[j]) {
        assert rev[j] == line[|line| - 1 - j];
      }
    }
    FindFirstNumAt(rev, i);
  }

  /** For a line with exactly one digit the first and the last digit are the
      same. */
  lemma SingleDigit(line: string, k: int)
    requires 0 <= k < |line| && IsDigit(line[k])
    requires forall j :: 0 <= j < |line| && j != k ==> !IsDigit(line[j])
    ensures ExtractFirstNum(line) == ExtractLastNum(line) == Ok(DigitValue(line[k]))
  {
    FirstNumAt(line, k);
    LastNumAt(line, k);
  }

  /** One line's calibration value, `None` where an `unwrap()` panics. */
  function Calibration(line: string): (r: Option<nat>)
    ensures r.None? <==> !HasDigit(line)
    ensures r.Some? ==> r.value < 100
  {
    match (ExtractFirstNum(line), ExtractLastNum(line))
    case (Ok(first), Ok(last)) => Some(10 * first + last)
    case _ => None
  }

  /** The calibration value is ten times the first digit plus the last. */
  lemma CalibrationAt(line: string, i: int, k: int)
    requires FirstDigitAt(line, i) && LastDigitAt(line, k)
    ensures Calibration(line) == Some(10 * DigitValue(line[i]) + DigitValue(line[k]))
  {
    FirstNumAt(line, i);
    LastNumAt(line, k);
  }

  /** `exercise1::compute` on the lines: the sum of the calibration values,
      `None` when a line has no digit. The `u32` width of the sum is not
      modelled; the sum is below `100 * |lines|`. */
  function Compute(lines: seq<string>): (r: Option<nat>)
    ensures r.Some? <==> forall i :: 0 <= i < |lines| ==> HasDigit(lines[i])
    ensures r.Some? ==> r.value < 100 * |lines| || lines == []
  {
    if lines == [] then Some(0)
    else
      var rest := Compute(lines[1..]);
      assert rest.Some? <==> forall i :: 1 <= i < |lines| ==> HasDigit(lines[i]) by {
        if rest.None? {
          var i :| 0 <= i < |lines[1..]| && !HasDigit(lines[1..][i]);
          assert lines[i + 1] == lines[1..][i];
        }
      }
      match (Calibration(lines[0]), rest)
      case (Some(v), Some(sum)) => Some(v + sum)
      case _ => None
  }

  // ------------------------------------------------------------- examples

  lemma ExampleFirst()
    ensures ExtractFirstNum("1234") == Ok(1)
    ensures ExtractFirstNum("aaa1assaa") == Ok(1)
  {
    FirstNumAt("1234", 0);
    FirstNumAt("aaa1assaa", 3);
  }

  lemma ExampleLast()
    ensures ExtractLastNum("1234") == Ok(4)
    ensures ExtractLastNum("aaa1assaa") == Ok(1)
  {
    LastNumAt("1234", 3);
    SingleDigit("aaa1assaa", 3);
  }

  lemma ExampleNone()
    ensures ExtractFirstNum("abc") == Err("No number")
    ensures Compute(["1234", "abc"]) == None
  {
    assert !HasDigit("abc");
  }

  /** The two test lines calibrate to 14 and 11. */
  lemma ExampleCalibrations()
    ensures Calibration("1234") == Some(14)
    ensures Calibration("aaa1assaa") == Some(11)
  {
    CalibrationAt("1234", 0, 3);
    CalibrationAt("aaa1assaa", 3, 3);
  }

  lemma ExampleCompute()
    ensures Compute(["1234", "aaa1assaa"]) == Some(25)
  {
    ExampleCalibrations();
    var lines := ["1234", "aaa1assaa"];
    assert lines[0] == "1234" && lines[1] == "aaa1assaa";
    ComputeCons(lines, Some(14), Some(11));
  }

  /** `Compute` on two lines from their calibrations. */
  lemma ComputeCons(lines: seq<string>, a: Option<nat>, b: Option<nat>)
    requires |lines| == 2 && Calibration(lines[0]) == a && Calibration(lines[1]) == b
    ensures a.Some? && b.Some? ==> Compute(lines) == Some(a.value + b.value)
  {
    if a.Some? && b.Some? {
      var last := lines[1..];
      assert last[1..] == [] && last[0] == lines[1];
      assert Compute(last) == Some(b.value);
    }
  }
}
