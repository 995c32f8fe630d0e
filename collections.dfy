/** Sequence and set helpers shared by the puzzles: sums, sortedness and
    sums over a `HashMap`'s values, whose iteration order is unspecified. */
module Collections {
  import opened Wrappers

  ghost predicate Distinct<T>(s: seq<T>) {
    forall i, j :: 0 <= i < j < |s| ==> s[i] != s[j]
  }

  /** The elements in reverse order (`rev()`). */
  function Reverse<T>(s: seq<T>): (r: seq<T>)
    ensures |r| == |s| && forall i :: 0 <= i < |s| ==> r[i] == s[|s| - 1 - i]
  {
    seq(|s|, i requires 0 <= i < |s| => s[|s| - 1 - i])
  }

  /** `iter().sum()` over naturals. */
  function Sum(s: seq<nat>): nat {
    if s == [] then 0 else s[0] + Sum(s[1..])
  }

  lemma {:induction false} SumAppend(a: seq<nat>, b: seq<nat>)
    ensures Sum(a + b) == Sum(a) + Sum(b)
  {
    if a == [] {
      assert a + b == b;
    } else {
      assert (a + b)[1..] == a[1..] + b;
      SumAppend(a[1..], b);
    }
  }

  predicate Sorted(s: seq<nat>) {
    forall i, j :: 0 <= i < j < |s| ==> s[i] <= s[j]
  }

  /** Inserting into a sorted sequence, before the first larger element. */
  function InsertSorted(v: nat, s: seq<nat>): (r: seq<nat>)
    requires Sorted(s)
    ensures Sorted(r)
    ensures multiset(r) == multiset(s) + multiset{v}
    ensures Sum(r) == Sum(s) + v
  {
    if s == [] || v <= s[0] then
      assert ([v] + s)[1..] == s;
      [v] + s
    else
      var rest := InsertSorted(v, s[1..]);
      InsertSortedStep(v, s, rest);
      [s[0]] + rest
  }

  /** The step of `InsertSorted` past a smaller first element. */
  lemma InsertSortedStep(v: nat, s: seq<nat>, rest: seq<nat>)
    requires Sorted(s) && s != [] && s[0] < v
    requires Sorted(rest) && multiset(rest) == multiset(s[1..]) + multiset{v} && Sum(rest) == Sum(s[1..]) + v
    ensures Sorted([s[0]] + rest)
    ensures multiset([s[0]] + rest) == multiset(s) + multiset{v}
    ensures Sum([s[0]] + rest) == Sum(s) + v
  {
    assert multiset([s[0]] + rest) == multiset(s) + multiset{v} by {
      assert s == [s[0]] + s[1..];
    }
    assert Sum([s[0]] + rest) == Sum(s) + v by {
      assert ([s[0]] + rest)[1..] == rest;
    }
    HeadBelow(v, s, rest);
  }

  /** What replaces the tail of a sorted sequence, plus `v`, stays at or
      above its head when `v` does. */
  lemma HeadBelow(v: nat, s: seq<nat>, rest: seq<nat>)
    requires Sorted(s) && s != [] && s[0] < v
    requires multiset(rest) == multiset(s[1..]) + multiset{v}
    ensures forall i :: 0 <= i < |rest| ==> s[0] <= rest[i]
  {
    forall i | 0 <= i < |rest| ensures s[0] <= rest[i] {
      assert rest[i] in multiset(rest);
      if rest[i] != v {
        assert rest[i] in multiset(s[1..]);
        var j :| 0 <= j < |s[1..]| && s[1..][j] == rest[i];
        assert s[j + 1] == rest[i];
      }
    }
  }

  /** Some element of a non-empty set: the element a loop over the set may
      visit first. */
  ghost function Pick<T>(s: set<T>): T
    requires s != {}
  {
    var x :| x in s; x
  }

  /** The sum of `f` over a finite set, in no particular order. */
  ghost function SumOver<T>(s: set<T>, f: T -> nat): nat
    decreases |s|
  {
    if s == {} then 0 else f(Pick(s)) + SumOver(s - {Pick(s)}, f)
  }

  /** The sum over a set may start at any element: visiting order does not
      change it. */
  lemma {:induction false} SumOverAny<T>(s: set<T>, f: T -> nat, x: T)
    requires x in s
    ensures SumOver(s, f) == f(x) + SumOver(s - {x}, f)
    decreases |s|
  {
    var y := Pick(s);
    if y != x {
      SumOverAny(s - {y}, f, x);
      SumOverAny(s - {x}, f, y);
      assert s - {y} - {x} == s - {x} - {y};
    }
  }

  /** The multiset of `f` over a finite set. */
  ghost function ValuesOver<T>(s: set<T>, f: T -> nat): multiset<nat>
    decreases |s|
  {
    if s == {} then multiset{} else multiset{f(Pick(s))} + ValuesOver(s - {Pick(s)}, f)
  }

  lemma {:induction false} ValuesOverAny<T>(s: set<T>, f: T -> nat, x: T)
    requires x in s
    ensures ValuesOver(s, f) == multiset{f(x)} + ValuesOver(s - {x}, f)
    decreases |s|
  {
    var y := Pick(s);
    if y != x {
      ValuesOverAny(s - {y}, f, x);
      ValuesOverAny(s - {x}, f, y);
      assert s - {y} - {x} == s - {x} - {y};
    }
  }

  lemma {:induction false} DistinctCard<T>(s: seq<T>)
    requires Distinct(s)
    ensures |set x | x in s| == |s|
  {
    if s != [] {
      var init := s[..|s| - 1];
      DistinctCard(init);
      assert (set x | x in s) == (set x | x in init) + {s[|s| - 1]};
      assert s[|s| - 1] !in init;
    }
  }

  /** Parsing every piece with `parse`, keeping their order (`map(...).collect()`
      into an `Option`, or an `unwrap()` on each); `None` when one fails. */
  function ParseEach<T>(pieces: seq<string>, parse: string -> Option<T>): (r: Option<seq<T>>)
    ensures r.Some? <==> forall i :: 0 <= i < |pieces| ==> parse(pieces[i]).Some?
    ensures r.Some? ==> |r.value| == |pieces|
    ensures r.Some? ==> forall i :: 0 <= i < |pieces| ==> Some(r.value[i]) == parse(pieces[i])
  {
    if pieces == [] then Some([])
    else
      match (parse(pieces[0]), ParseEach(pieces[1..], parse))
      case (Some(x), Some(rest)) => Some([x] + rest)
      case _ => None
  }
}
