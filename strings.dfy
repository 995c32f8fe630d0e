/** Text helpers shared by the puzzles: the parts of Rust's `str` API that the
    solutions use (`split`, `split_ascii_whitespace`, `parse::<usize>()`,
    `parse::<i32>()`), written out over `string` = `seq<char>`. Characters
    stand for bytes: every input is ASCII. */
module Strings {
  import opened Wrappers

  // ---------------------------------------------------------------- digits

  predicate IsDigit(c: char) {
    '0' <= c <= '9'
  }

  function DigitValue(c: char): (d: nat)
    requires IsDigit(c)
    ensures d < 10
  {
    c as int - '0' as int
  }

  function DigitChar(d: nat): (c: char)
    requires d < 10
    ensures IsDigit(c) && DigitValue(c) == d
  {
    ('0' as int + d) as char
  }

  predicate AllDigits(s: string) {
    forall i :: 0 <= i < |s| ==> IsDigit(s[i])
  }

  /** The decimal value of a string of digits, most significant first. */
  function DigitsValue(s: string): nat
    requires AllDigits(s)
  {
    if s == [] then 0 else 10 * DigitsValue(s[..|s| - 1]) + DigitValue(s[|s| - 1])
  }

  /** Decimal rendering without leading zeros (`n.to_string()`). */
  function NatToString(n: nat): (s: string)
    ensures s != [] && AllDigits(s)
  {
    if n < 10 then [DigitChar(n)] else NatToString(n / 10) + [DigitChar(n % 10)]
  }

  lemma {:induction false} DigitsValueOfNatToString(n: nat)
    ensures DigitsValue(NatToString(n)) == n
  {
    if n >= 10 {
      var s := NatToString(n);
      assert s[..|s| - 1] == NatToString(n / 10);
      DigitsValueOfNatToString(n / 10);
    }
  }

  /** `s.parse::<usize>()`: an optional `+`, then one or more ASCII digits.
      The width of `usize` is not modelled. */
  function ParseNat(s: string): Option<nat> {
    var digits := if |s| > 0 && s[0] == '+' then s[1..] else s;
    if digits != [] && AllDigits(digits) then Some(DigitsValue(digits)) else None
  }

  /** `s.parse::<u32>()` and friends: `ParseNat` that also fails when the value
      does not fit below `bound`. */
  function ParseBounded(s: string, bound: nat): (r: Option<nat>)
    ensures r.Some? ==> r.value < bound && ParseNat(s) == r
  {
    var n := ParseNat(s);
    if n.Some? && n.value < bound then n else None
  }

  const U32_LIMIT: nat := 0x1_0000_0000

  /** `s.parse::<i32>()` without the width: an optional sign, then digits. */
  function ParseInt(s: string): Option<int> {
    if |s| > 0 && s[0] == '-' then
      (var digits := s[1..];
       if digits != [] && AllDigits(digits) then Some(0 - DigitsValue(digits) as int) else None)
    else
      match ParseNat(s)
      case Some(n) => Some(n)
      case None => None
  }

  lemma ParseNatOfNatToString(n: nat)
    ensures ParseNat(NatToString(n)) == Some(n)
  {
    DigitsValueOfNatToString(n);
  }

  // ------------------------------------------------------------ whitespace

  /** The characters `split_ascii_whitespace` splits on. */
  predicate IsSpace(c: char) {
    c == ' ' || c == '\t' || c == '\n' || c == '\r' || c == '\U{000C}'
  }

  predicate NoSpace(s: string) {
    forall i :: 0 <= i < |s| ==> !IsSpace(s[i])
  }

  /** Length of the longest prefix of `s` that holds no whitespace. */
  function WordLength(s: string): (n: nat)
    ensures n <= |s| && NoSpace(s[..n])
    ensures n < |s| ==> IsSpace(s[n])
  {
    if s == [] || IsSpace(s[0]) then 0 else 1 + WordLength(s[1..])
  }

  /** `s.split_ascii_whitespace()`: the maximal runs of non-whitespace. */
  function Words(s: string): (r: seq<string>)
    ensures forall i :: 0 <= i < |r| ==> r[i] != [] && NoSpace(r[i])
    decreases |s|
  {
    if s == [] then []
    else if IsSpace(s[0]) then Words(s[1..])
    else
      var n := WordLength(s);
      [s[..n]] + Words(s[n..])
  }

  /** `parts.join(sep)`. */
  function Join(parts: seq<string>, sep: string): string {
    if |parts| == 0 then []
    else if |parts| == 1 then parts[0]
    else parts[0] + sep + Join(parts[1..], sep)
  }

  lemma {:induction false} WordLengthOfWord(w: string, t: string)
    requires NoSpace(w)
    requires t == [] || IsSpace(t[0])
    ensures WordLength(w + t) == |w|
  {
    if w != [] {
      assert (w + t)[1..] == w[1..] + t;
      WordLengthOfWord(w[1..], t);
    }
  }

  /** Words separated by single spaces split back into the same words. */
  lemma {:induction false} WordsOfJoin(ws: seq<string>)
    requires forall i :: 0 <= i < |ws| ==> ws[i] != [] && NoSpace(ws[i])
    ensures Words(Join(ws, " ")) == ws
  {
    if |ws| == 1 {
      WordLengthOfWord(ws[0], []);
      assert ws[0] + [] == ws[0];
      assert ws[0][|ws[0]|..] == [];
    } else if |ws| > 1 {
      var rest := Join(ws[1..], " ");
      var s := ws[0] + " " + rest;
      assert s == ws[0] + (" " + rest);
      WordLengthOfWord(ws[0], " " + rest);
      assert s[..|ws[0]|] == ws[0];
      assert s[|ws[0]|..] == " " + rest;
      assert (" " + rest)[1..] == rest;
      WordsOfJoin(ws[1..]);
      assert ws == [ws[0]] + ws[1..];
    }
  }

  // ------------------------------------------------------------- splitting

  /** Index of the first character of `s` in `seps`, or `|s|` when there is none. */
  function FirstOf(s: string, seps: set<char>): (i: nat)
    ensures i <= |s|
    ensures forall k :: 0 <= k < i ==> s[k] !in seps
    ensures i < |s| ==> s[i] in seps
  {
    if s == [] || s[0] in seps then 0 else 1 + FirstOf(s[1..], seps)
  }

  /** `s.split([c1, c2, ...])`: the pieces between separator characters,
      empty pieces included; there is always at least one piece. */
  function SplitAny(s: string, seps: set<char>): seq<string>
    decreases |s|
  {
    var i := FirstOf(s, seps);
    if i == |s| then [s] else [s[..i]] + SplitAny(s[i + 1..], seps)
  }

  /** There is always a piece, and no piece holds a separator. */
  lemma {:induction false} SplitAnyPieces(s: string, seps: set<char>)
    ensures |SplitAny(s, seps)| >= 1
    ensures forall k :: 0 <= k < |SplitAny(s, seps)| ==>
      forall j :: 0 <= j < |SplitAny(s, seps)[k]| ==> SplitAny(s, seps)[k][j] !in seps
    decreases |s|
  {
    var i := FirstOf(s, seps);
    if i < |s| {
      SplitAnyPieces(s[i + 1..], seps);
      var r := SplitAny(s, seps);
      assert r[1..] == SplitAny(s[i + 1..], seps);
      assert r[0] == s[..i];
    }
  }

  /** A piece free of separators, then a separator, splits off as one piece. */
  lemma {:induction false} SplitAnyPiece(w: string, c: char, rest: string, seps: set<char>)
    requires forall j :: 0 <= j < |w| ==> w[j] !in seps
    requires c in seps
    ensures SplitAny(w + ([c] + rest), seps) == [w] + SplitAny(rest, seps)
  {
    var s := w + ([c] + rest);
    assert s[|w|] == c;
    assert forall j :: 0 <= j < |w| ==> s[j] == w[j];
    assert FirstOf(s, seps) == |w|;
    assert s[..|w|] == w;
    assert s[|w| + 1..] == rest;
  }

  /** Text without a separator character is a single piece. */
  lemma SplitAnyNone(s: string, seps: set<char>)
    requires forall j :: 0 <= j < |s| ==> s[j] !in seps
    ensures SplitAny(s, seps) == [s]
  {
    assert FirstOf(s, seps) == |s|;
  }

  predicate OccursAt(s: string, sep: string, k: nat) {
    k + |sep| <= |s| && s[k..k + |sep|] == sep
  }

  /** Index of the first occurrence of `sep` in `s` at or after `from`, or `|s|`. */
  function FindFrom(s: string, sep: string, from: nat): (i: nat)
    requires from <= |s|
    ensures from <= i <= |s|
    ensures i < |s| ==> OccursAt(s, sep, i)
    ensures forall k :: from <= k < i ==> !OccursAt(s, sep, k)
    decreases |s| - from
  {
    if from + |sep| > |s| then |s|
    else if s[from..from + |sep|] == sep then from
    else FindFrom(s, sep, from + 1)
  }

  /** `s.split(sep)` for a non-empty separator string. */
  function SplitStr(s: string, sep: string): (r: seq<string>)
    requires sep != []
    ensures |r| >= 1
    decreases |s|
  {
    var i := FindFrom(s, sep, 0);
    if i == |s| then [s] else [s[..i]] + SplitStr(s[i + |sep|..], sep)
  }

  /** Splitting and joining again with the same separator gives back the text. */
  lemma {:induction false} JoinSplitStr(s: string, sep: string)
    requires sep != []
    ensures Join(SplitStr(s, sep), sep) == s
    decreases |s|
  {
    var i := FindFrom(s, sep, 0);
    if i < |s| {
      var tail := s[i + |sep|..];
      JoinSplitStr(tail, sep);
      SplitStrStep(s, sep, i);
      JoinStep(s[..i], SplitStr(tail, sep), sep);
      assert s[i..i + |sep|] == sep;
      SliceThree(s, i, i + |sep|);
    }
  }

  lemma SliceThree(s: string, i: nat, j: nat)
    requires i <= j <= |s|
    ensures s == s[..i] + s[i..j] + s[j..]
  {
  }

  /** A separator found at `i` splits off the text before it. */
  lemma SplitStrStep(s: string, sep: string, i: nat)
    requires sep != [] && i == FindFrom(s, sep, 0) && i < |s|
    ensures SplitStr(s, sep) == [s[..i]] + SplitStr(s[i + |sep|..], sep)
  {
  }

  /** Joining a piece in front of at least one more puts a separator between. */
  lemma JoinStep(first: string, rest: seq<string>, sep: string)
    requires rest != []
    ensures Join([first] + rest, sep) == first + sep + Join(rest, sep)
  {
    assert ([first] + rest)[1..] == rest;
  }

  /** `c` does not occur in `s`. */
  predicate NoChar(s: string, c: char) {
    forall k :: 0 <= k < |s| ==> s[k] != c
  }

  lemma NoCharConcat(a: string, b: string, c: char)
    ensures NoChar(a + b, c) <==> NoChar(a, c) && NoChar(b, c)
  {
    if NoChar(a, c) && NoChar(b, c) {
      forall k | 0 <= k < |a + b| ensures (a + b)[k] != c {
        if k >= |a| {
          assert (a + b)[k] == b[k - |a|];
        }
      }
    }
    if NoChar(a + b, c) {
      forall k | 0 <= k < |a| ensures a[k] != c {
        assert (a + b)[k] == a[k];
      }
      forall k | 0 <= k < |b| ensures b[k] != c {
        assert (a + b)[|a| + k] == b[k];
      }
    }
  }

  lemma NoCharNatToString(n: nat, c: char)
    requires !IsDigit(c)
    ensures NoChar(NatToString(n), c)
  {
  }

  lemma {:induction false} NoCharJoin(parts: seq<string>, sep: string, c: char)
    requires NoChar(sep, c)
    requires forall i :: 0 <= i < |parts| ==> NoChar(parts[i], c)
    ensures NoChar(Join(parts, sep), c)
  {
    if |parts| > 1 {
      NoCharJoin(parts[1..], sep, c);
      NoCharConcat(parts[0], sep, c);
      NoCharConcat(parts[0] + sep, Join(parts[1..], sep), c);
    }
  }

  /** Text in which the separator's first character does not occur has no
      occurrence of the separator. */
  lemma NoOccurrence(s: string, sep: string, k: nat)
    requires sep != [] && k < |s| && s[k] != sep[0]
    ensures !OccursAt(s, sep, k)
  {
    if k + |sep| <= |s| {
      assert s[k..k + |sep|][0] == s[k];
    }
  }

  /** Splitting text without the separator gives the text itself. */
  lemma SplitStrNone(s: string, sep: string)
    requires sep != [] && NoChar(s, sep[0])
    ensures SplitStr(s, sep) == [s]
  {
    forall k | 0 <= k < |s| ensures !OccursAt(s, sep, k) {
      NoOccurrence(s, sep, k);
    }
  }

  /** A piece without the separator's first character, then the separator,
      splits off as one piece. */
  lemma SplitStrPiece(w: string, sep: string, rest: string)
    requires sep != [] && NoChar(w, sep[0])
    ensures SplitStr(w + sep + rest, sep) == [w] + SplitStr(rest, sep)
  {
    var s := w + sep + rest;
    forall k | 0 <= k < |w| ensures !OccursAt(s, sep, k) {
      assert s[k] == w[k];
      NoOccurrence(s, sep, k);
    }
    assert s[|w|..|w| + |sep|] == sep;
    assert OccursAt(s, sep, |w|);
    assert FindFrom(s, sep, 0) == |w|;
    assert s[..|w|] == w;
    assert s[|w| + |sep|..] == rest;
  }

  /** Joining pieces free of the separator's first character and splitting
      again gives back the pieces. */
  lemma {:induction false} SplitStrJoin(parts: seq<string>, sep: string)
    requires sep != [] && |parts| >= 1
    requires forall i :: 0 <= i < |parts| ==> NoChar(parts[i], sep[0])
    ensures SplitStr(Join(parts, sep), sep) == parts
  {
    if |parts| == 1 {
      SplitStrNone(parts[0], sep);
    } else {
      SplitStrPiece(parts[0], sep, Join(parts[1..], sep));
      SplitStrJoin(parts[1..], sep);
      assert parts == [parts[0]] + parts[1..];
    }
  }

  /** `s.ends_with(suffix)`. */
  predicate EndsWith(s: string, suffix: string) {
    |suffix| <= |s| && s[|s| - |suffix|..] == suffix
  }

  /** `c.to_string().repeat(n)`. */
  function Repeat(c: char, n: nat): (r: string)
    ensures |r| == n && forall i :: 0 <= i < n ==> r[i] == c
  {
    if n == 0 then [] else Repeat(c, n - 1) + [c]
  }
}
