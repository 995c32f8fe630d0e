/** Day 12: Hot Springs. A record is a pattern of `#`, `.` and `?` and the
    lengths of the runs of `#` it must hold. The decipherer places the runs
    one at a time, left to right, and counts the complete placements that
    agree with the pattern. */
module Day12Springs {
  import opened Wrappers
  import opened Strings
  import opened Collections

  /** `DecipherState`: the pattern, the placement written so far (the
      fixture) and the runs still to place. */
  datatype DecipherState = DecipherState(pattern: string, fixture: string, chunks: seq<nat>)

  /** `is_terminal`: the fixture is as long as the pattern. */
  predicate IsTerminal(s: DecipherState) {
    |s.fixture| == |s.pattern|
  }

  // ------------------------------------------------------------- validate

  /** Position `k` of the fixture is allowed by the pattern: `?` accepts
      anything, any other character must be written there. */
  predicate Agrees(pattern: string, fixture: string, k: int)
    requires 0 <= k < |pattern| && k < |fixture|
  {
    pattern[k] == '?' || pattern[k] == fixture[k]
  }

  /** `fixture` starts with `prefix`. */
  predicate Extends(prefix: string, fixture: string) {
    |prefix| <= |fixture| && fixture[..|prefix|] == prefix
  }

  /** The whole fixture is allowed by the pattern. */
  predicate Compatible(pattern: string, fixture: string) {
    |fixture| <= |pattern| && forall k :: 0 <= k < |fixture| ==> Agrees(pattern, fixture, k)
  }

  /** The scan of `validate` from position `k`: the characters of the
      pattern that are not `?` match the fixture. */
  function ValidFrom(pattern: string, fixture: string, k: nat): (b: bool)
    requires k <= |fixture| <= |pattern|
    ensures b <==> forall j :: k <= j < |fixture| ==> Agrees(pattern, fixture, j)
    decreases |fixture| - k
  {
    if k == |fixture| then true
    else if pattern[k] == '?' || pattern[k] == fixture[k] then ValidFrom(pattern, fixture, k + 1)
    else
      assert !Agrees(pattern, fixture, k);
      false
  }

  /** `validate`: only the positions from the old fixture's length up to the
      candidate's length are checked. The slice of the pattern panics unless
      the candidate is at least as long as the old fixture and no longer than
      the pattern. */
  function Validate(s: DecipherState, fixture: string): (b: bool)
    requires |s.fixture| <= |fixture| <= |s.pattern|
    ensures b <==> forall j :: |s.fixture| <= j < |fixture| ==> Agrees(s.pattern, fixture, j)
  {
    ValidFrom(s.pattern, fixture, |s.fixture|)
  }

  /** On an extension of a compatible fixture, `validate` decides
      compatibility of the whole candidate. */
  lemma ValidateExtends(s: DecipherState, fixture: string)
    requires Compatible(s.pattern, s.fixture)
    requires Extends(s.fixture, fixture) && |fixture| <= |s.pattern|
    ensures Validate(s, fixture) <==> Compatible(s.pattern, fixture)
  {
    if Validate(s, fixture) {
      forall k | 0 <= k < |fixture| ensures Agrees(s.pattern, fixture, k) {
        if k < |s.fixture| {
          assert fixture[k] == s.fixture[k];
          assert Agrees(s.pattern, s.fixture, k);
        }
      }
    }
  }

  // ---------------------------------------------------------- next_states

  /** The state leaves room for its runs: the subtractions of `next_states`
      (lines for `remaining` and `max_space_size`) do not underflow. */
  predicate Fits(s: DecipherState) {
    |s.fixture| <= |s.pattern| &&
    (s.chunks != [] ==> |s.fixture| + Sum(s.chunks) + |s.chunks| - 1 <= |s.pattern|)
  }

  /** `max_space_size`: the most dots that can come before the next run. */
  function MaxSpace(s: DecipherState): nat
    requires Fits(s) && s.chunks != []
  {
    |s.pattern| - |s.fixture| - Sum(s.chunks) - (|s.chunks| - 1)
  }

  /** `chunk_txt`: the next run, then a `.` if more runs follow. */
  function ChunkText(chunks: seq<nat>): (r: string)
    requires chunks != []
    ensures |r| == chunks[0] + (if |chunks| > 1 then 1 else 0)
  {
    Repeat('#', chunks[0]) + if |chunks| > 1 then "." else ""
  }

  /** The candidate fixture with `l` dots before the next run. */
  function Candidate(s: DecipherState, l: nat): (r: string)
    requires s.chunks != []
    ensures |r| == |s.fixture| + l + |ChunkText(s.chunks)| && Extends(s.fixture, r)
  {
    s.fixture + Repeat('.', l) + ChunkText(s.chunks)
  }

  /** With at most `MaxSpace` dots the candidate stays within the pattern. */
  lemma CandidateFits(s: DecipherState, l: nat)
    requires Fits(s) && s.chunks != [] && l <= MaxSpace(s)
    ensures |Candidate(s, l)| <= |s.pattern|
    ensures Fits(DecipherState(s.pattern, Candidate(s, l), s.chunks[1..]))
  {
    assert Sum(s.chunks) == s.chunks[0] + Sum(s.chunks[1..]);
  }

  /** The fixture padded with dots up to the pattern's length. */
  function Padded(s: DecipherState): (r: string)
    requires |s.fixture| <= |s.pattern|
    ensures |r| == |s.pattern| && Extends(s.fixture, r)
  {
    s.fixture + Repeat('.', |s.pattern| - |s.fixture|)
  }

  /** `t` can follow `s`: same pattern, the fixture extended, the first run
      (if any) placed, and still room for the rest. */
  predicate Follows(s: DecipherState, t: DecipherState) {
    t.pattern == s.pattern && Fits(t) && Extends(s.fixture, t.fixture) &&
    t.chunks == if s.chunks == [] then [] else s.chunks[1..]
  }

  /** The valid candidates with fewer than `n` dots, in increasing order of
      the number of dots. */
  function SuccessorsUpTo(s: DecipherState, n: nat): (r: seq<DecipherState>)
    requires Fits(s) && s.chunks != [] && n <= MaxSpace(s) + 1
    ensures |r| <= n
    ensures forall i :: 0 <= i < |r| ==> Follows(s, r[i])
  {
    if n == 0 then []
    else
      var c := Candidate(s, n - 1);
      CandidateFits(s, n - 1);
      SuccessorsUpTo(s, n - 1) +
        if Validate(s, c) then [DecipherState(s.pattern, c, s.chunks[1..])] else []
  }

  /** One more number of dots adds its candidate when that is valid. */
  lemma SuccessorsUpToStep(s: DecipherState, l: nat)
    requires Fits(s) && s.chunks != [] && l <= MaxSpace(s)
    ensures |Candidate(s, l)| <= |s.pattern|
    ensures SuccessorsUpTo(s, l + 1) == SuccessorsUpTo(s, l) +
      if Validate(s, Candidate(s, l)) then [DecipherState(s.pattern, Candidate(s, l), s.chunks[1..])] else []
  {
    CandidateFits(s, l);
  }

  /** What `next_states` returns. With no runs left, the fixture padded with
      dots when that is valid; otherwise one state per valid number of dots
      `l` in `0..=max_space_size`, in increasing order of `l`, each with the
      first run removed. */
  function Successors(s: DecipherState): (r: seq<DecipherState>)
    requires Fits(s)
    ensures |r| <= |s.pattern| - |s.fixture| + 1
    ensures forall i :: 0 <= i < |r| ==> Follows(s, r[i])
    ensures s.chunks == [] ==> forall i :: 0 <= i < |r| ==> IsTerminal(r[i])
  {
    if s.chunks == [] then
      var f := Padded(s);
      if Validate(s, f) then [DecipherState(s.pattern, f, [])] else []
    else
      SuccessorsUpTo(s, MaxSpace(s) + 1)
  }

  /** A successor with runs left is valid and a candidate with fewer than
      `n` dots. */
  lemma {:induction false} SuccessorsUpToFixture(s: DecipherState, n: nat, t: DecipherState)
    requires Fits(s) && s.chunks != [] && n <= MaxSpace(s) + 1 && t in SuccessorsUpTo(s, n)
    ensures |s.fixture| + |ChunkText(s.chunks)| <= |t.fixture| < |s.fixture| + |ChunkText(s.chunks)| + n
    ensures t == DecipherState(s.pattern, Candidate(s, |t.fixture| - |s.fixture| - |ChunkText(s.chunks)|), s.chunks[1..])
    ensures Validate(s, t.fixture)
  {
    var c := Candidate(s, n - 1);
    CandidateFits(s, n - 1);
    if t in SuccessorsUpTo(s, n - 1) {
      SuccessorsUpToFixture(s, n - 1, t);
    } else {
      assert t == DecipherState(s.pattern, c, s.chunks[1..]);
    }
  }

  /** Every valid candidate with fewer than `n` dots is a successor. */
  lemma {:induction false} SuccessorsUpToComplete(s: DecipherState, n: nat, l: nat)
    requires Fits(s) && s.chunks != [] && l < n <= MaxSpace(s) + 1
    requires |Candidate(s, l)| <= |s.pattern| && Validate(s, Candidate(s, l))
    ensures DecipherState(s.pattern, Candidate(s, l), s.chunks[1..]) in SuccessorsUpTo(s, n)
  {
    CandidateFits(s, n - 1);
    if l < n - 1 {
      SuccessorsUpToComplete(s, n - 1, l);
    }
  }

  /** The successors come in strictly increasing order of length. */
  lemma {:induction false} SuccessorsUpToOrdered(s: DecipherState, n: nat)
    requires Fits(s) && s.chunks != [] && n <= MaxSpace(s) + 1
    ensures forall i, j :: 0 <= i < j < |SuccessorsUpTo(s, n)| ==>
      |SuccessorsUpTo(s, n)[i].fixture| < |SuccessorsUpTo(s, n)[j].fixture|
  {
    if n > 0 {
      SuccessorsUpToOrdered(s, n - 1);
      var prev := SuccessorsUpTo(s, n - 1);
      var c := Candidate(s, n - 1);
      CandidateFits(s, n - 1);
      forall i | 0 <= i < |prev| ensures |prev[i].fixture| < |c| {
        SuccessorsUpToFixture(s, n - 1, prev[i]);
      }
    }
  }

  /** With runs left, a candidate with at most `MaxSpace` dots is a
      successor exactly when `validate` accepts it. */
  lemma SuccessorsExactly(s: DecipherState)
    requires Fits(s) && s.chunks != []
    ensures forall l :: 0 <= l <= MaxSpace(s) ==> (|Candidate(s, l)| <= |s.pattern| &&
      (Validate(s, Candidate(s, l)) <==> DecipherState(s.pattern, Candidate(s, l), s.chunks[1..]) in Successors(s)))
  {
    var n := MaxSpace(s) + 1;
    forall l | 0 <= l <= MaxSpace(s)
      ensures |Candidate(s, l)| <= |s.pattern|
      ensures Validate(s, Candidate(s, l)) <==> DecipherState(s.pattern, Candidate(s, l), s.chunks[1..]) in Successors(s)
    {
      CandidateFits(s, l);
      if Validate(s, Candidate(s, l)) {
        SuccessorsUpToComplete(s, n, l);
      }
      if DecipherState(s.pattern, Candidate(s, l), s.chunks[1..]) in Successors(s) {
        SuccessorsUpToFixture(s, n, DecipherState(s.pattern, Candidate(s, l), s.chunks[1..]));
      }
    }
  }

  /** With runs left, every successor is a valid candidate with at most
      `MaxSpace` dots. */
  lemma SuccessorsAreCandidates(s: DecipherState)
    requires Fits(s) && s.chunks != []
    ensures forall t :: t in Successors(s) ==> exists l :: (0 <= l <= MaxSpace(s) &&
      t == DecipherState(s.pattern, Candidate(s, l), s.chunks[1..]) && Validate(s, Candidate(s, l)))
  {
    forall t | t in Successors(s) ensures exists l :: (0 <= l <= MaxSpace(s) &&
      t == DecipherState(s.pattern, Candidate(s, l), s.chunks[1..]) && Validate(s, Candidate(s, l)))
    {
      SuccessorsUpToFixture(s, MaxSpace(s) + 1, t);
    }
  }

  /** With runs left, the successors come in increasing order of the number
      of dots. */
  lemma SuccessorsOrdered(s: DecipherState)
    requires Fits(s) && s.chunks != []
    ensures forall i, j :: 0 <= i < j < |Successors(s)| ==> |Successors(s)[i].fixture| < |Successors(s)[j].fixture|
  {
    SuccessorsUpToOrdered(s, MaxSpace(s) + 1);
  }

  /** Every fixture the decipherer builds stays compatible with the pattern. */
  lemma SuccessorsCompatible(s: DecipherState)
    requires Fits(s) && Compatible(s.pattern, s.fixture)
    ensures forall i :: 0 <= i < |Successors(s)| ==> Compatible(s.pattern, Successors(s)[i].fixture)
  {
    var r := Successors(s);
    if s.chunks == [] {
      if r != [] {
        ValidateExtends(s, Padded(s));
      }
    } else {
      forall i | 0 <= i < |r| ensures Compatible(s.pattern, r[i].fixture) {
        SuccessorsUpToFixture(s, MaxSpace(s) + 1, r[i]);
        var l := |r[i].fixture| - |s.fixture| - |ChunkText(s.chunks)|;
        CandidateFits(s, l);
        ValidateExtends(s, Candidate(s, l));
      }
    }
  }

  /** `next_states`: the `for` loop over the number of dots, pushing the
      valid candidates. */
  method NextStates(s: DecipherState) returns (result: seq<DecipherState>)
    requires Fits(s)
    ensures result == Successors(s)
  {
    if |s.chunks| == 0 {
      var fixture := s.fixture + Repeat('.', |s.pattern| - |s.fixture|);
      assert fixture == Padded(s);
      if Validate(s, fixture) {
        return [DecipherState(s.pattern, fixture, [])];
      } else {
        return [];
      }
    }
    var chunkText := Repeat('#', s.chunks[0]) + if |s.chunks| > 1 then "." else "";
    var maxSpaceSize := |s.pattern| - |s.fixture| - Sum(s.chunks) - (|s.chunks| - 1);
    assert maxSpaceSize == MaxSpace(s);
    result := [];
    for l := 0 to maxSpaceSize + 1
      invariant result == SuccessorsUpTo(s, l)
    {
      var fixture := s.fixture + Repeat('.', l) + chunkText;
      assert fixture == Candidate(s, l);
      if Validate(s, fixture) {
        result := result + [DecipherState(s.pattern, fixture, s.chunks[1..])];
      }
      assert result == SuccessorsUpTo(s, l + 1) by {
        SuccessorsUpToStep(s, l);
      }
    }
    assert Successors(s) == SuccessorsUpTo(s, maxSpaceSize + 1);
  }

  // ------------------------------------------------------- the work queue

  /** The number of terminal states reachable from `s`: every successor that
      is terminal counts once, every other one counts what it reaches. */
  function Arrangements(s: DecipherState): nat
    requires Fits(s)
    decreases |s.chunks|, 1, 0
  {
    if s.chunks == [] then |Successors(s)| else Tally(Successors(s), |s.chunks| - 1)
  }

  /** The count over a list of states that all have `k` runs left. */
  function Tally(ts: seq<DecipherState>, k: nat): nat
    requires forall i :: 0 <= i < |ts| ==> Fits(ts[i]) && |ts[i].chunks| == k
    decreases k + 1, 0, |ts|
  {
    if ts == [] then 0
    else
      var t := ts[|ts| - 1];
      Tally(ts[..|ts| - 1], k) + (if IsTerminal(t) then 1 else Arrangements(t))
  }

  /** The number of runs left on the successors of `s`. */
  function Rest(s: DecipherState): nat {
    if s.chunks == [] then 0 else |s.chunks| - 1
  }

  /** A state's count is the tally over its successors. */
  lemma ArrangementsTally(s: DecipherState)
    requires Fits(s)
    ensures Arrangements(s) == Tally(Successors(s), Rest(s))
  {
    if s.chunks == [] {
      TallyTerminal(Successors(s));
    }
  }

  lemma {:induction false} TallyTerminal(ts: seq<DecipherState>)
    requires forall i :: 0 <= i < |ts| ==> Fits(ts[i]) && ts[i].chunks == [] && IsTerminal(ts[i])
    ensures Tally(ts, 0) == |ts|
  {
    if ts != [] {
      TallyTerminal(ts[..|ts| - 1]);
    }
  }

  /** The counts still owed by the states in the queue. */
  function Owed(queue: seq<DecipherState>): nat
    requires forall i :: 0 <= i < |queue| ==> Fits(queue[i])
  {
    if queue == [] then 0 else Owed(queue[..|queue| - 1]) + Arrangements(queue[|queue| - 1])
  }

  function Pow(b: nat, e: nat): (r: nat)
    ensures b > 0 ==> r > 0
  {
    if e == 0 then 1 else b * Pow(b, e - 1)
  }

  /** The termination measure of the work queue: a state with `k` runs left
      weighs `b^k`, more than the at most `b - 1` successors it is replaced
      by, each of which has one run fewer. */
  function Weight(queue: seq<DecipherState>, b: nat): nat {
    if queue == [] then 0 else Weight(queue[..|queue| - 1], b) + Pow(b, |queue[|queue| - 1].chunks|)
  }

  lemma WeightPop(queue: seq<DecipherState>, b: nat)
    requires queue != []
    ensures Weight(queue, b) == Weight(queue[..|queue| - 1], b) + Pow(b, |queue[|queue| - 1].chunks|)
  {
  }

  /** At most `b - 1` states of weight `b^k` weigh less than one of weight
      `b^(k+1)`. */
  lemma PushedBound(pushed: nat, b: nat, k: nat)
    requires 0 < b && pushed <= b - 1
    ensures pushed * Pow(b, k) < Pow(b, k + 1)
  {
    var p := Pow(b, k);
    assert pushed * p <= (b - 1) * p;
    assert Pow(b, k + 1) == b * p;
  }

  /** A state the work queue may hold: it fits and has the queue's pattern. */
  predicate Queued(s: DecipherState, pattern: string) {
    Fits(s) && s.pattern == pattern
  }

  /** The number of terminal states in `ts`. */
  function TerminalCount(ts: seq<DecipherState>): nat {
    if ts == [] then 0
    else TerminalCount(ts[..|ts| - 1]) + (if IsTerminal(ts[|ts| - 1]) then 1 else 0)
  }

  /** The states of `ts` that are not terminal, in order. */
  function NonTerminal(ts: seq<DecipherState>): (r: seq<DecipherState>)
    ensures |r| + TerminalCount(ts) == |ts|
    ensures forall i :: 0 <= i < |r| ==> !IsTerminal(r[i])
  {
    if ts == [] then []
    else
      var t := ts[|ts| - 1];
      var init := NonTerminal(ts[..|ts| - 1]);
      if IsTerminal(t) then init else init + [t]
  }

  /** The states kept are states of the list, so they share its properties. */
  lemma {:induction false} NonTerminalQueued(ts: seq<DecipherState>, k: nat, pattern: string)
    requires forall i :: 0 <= i < |ts| ==> Queued(ts[i], pattern) && |ts[i].chunks| == k
    ensures forall i :: 0 <= i < |NonTerminal(ts)| ==> Queued(NonTerminal(ts)[i], pattern) && |NonTerminal(ts)[i].chunks| == k
  {
    if ts != [] {
      NonTerminalQueued(ts[..|ts| - 1], k, pattern);
    }
  }

  /** No state is kept when all of them are terminal. */
  lemma {:induction false} NonTerminalNone(ts: seq<DecipherState>)
    requires forall i :: 0 <= i < |ts| ==> IsTerminal(ts[i])
    ensures NonTerminal(ts) == []
  {
    if ts != [] {
      NonTerminalNone(ts[..|ts| - 1]);
    }
  }

  /** Splitting a list of successors into the terminal ones, which are
      counted, and the others, which are queued, keeps the total. */
  lemma {:induction false} TallySplit(ts: seq<DecipherState>, k: nat, pattern: string)
    requires forall i :: 0 <= i < |ts| ==> Fits(ts[i]) && ts[i].pattern == pattern && |ts[i].chunks| == k
    ensures forall i :: 0 <= i < |NonTerminal(ts)| ==> Fits(NonTerminal(ts)[i])
    ensures TerminalCount(ts) + Owed(NonTerminal(ts)) == Tally(ts, k)
  {
    NonTerminalQueued(ts, k, pattern);
    if ts != [] {
      var init := ts[..|ts| - 1];
      var t := ts[|ts| - 1];
      TallySplit(init, k, pattern);
      if !IsTerminal(t) {
        var kept := NonTerminal(init) + [t];
        assert kept[..|kept| - 1] == NonTerminal(init);
      }
    }
  }

  /** What the non-terminal states weigh. */
  lemma {:induction false} NonTerminalWeight(ts: seq<DecipherState>, k: nat, b: nat)
    requires forall i :: 0 <= i < |ts| ==> |ts[i].chunks| == k
    ensures Weight(NonTerminal(ts), b) <= |ts| * Pow(b, k)
  {
    if ts != [] {
      var init := ts[..|ts| - 1];
      var t := ts[|ts| - 1];
      NonTerminalWeight(init, k, b);
      var w := Pow(b, k);
      assert Weight(NonTerminal(ts), b) <= Weight(NonTerminal(init), b) + w by {
        if !IsTerminal(t) {
          var kept := NonTerminal(init) + [t];
          assert kept[..|kept| - 1] == NonTerminal(init);
        }
      }
      assert |ts| == |init| + 1;
      MulStep(|init|, w);
    }
  }

  lemma MulStep(n: nat, w: nat)
    ensures (n + 1) * w == n * w + w
  {
  }

  /** The counts owed by two queues one after the other add up. */
  lemma {:induction false} OwedAppend(a: seq<DecipherState>, c: seq<DecipherState>)
    requires forall i :: 0 <= i < |a| ==> Fits(a[i])
    requires forall i :: 0 <= i < |c| ==> Fits(c[i])
    ensures forall i :: 0 <= i < |a + c| ==> Fits((a + c)[i])
    ensures Owed(a + c) == Owed(a) + Owed(c)
  {
    assert forall i :: 0 <= i < |a + c| ==> Fits((a + c)[i]) by {
      forall i | 0 <= i < |a + c| ensures Fits((a + c)[i]) {
        if i >= |a| {
          assert (a + c)[i] == c[i - |a|];
        }
      }
    }
    if c == [] {
      assert a + c == a;
    } else {
      var init := c[..|c| - 1];
      OwedAppend(a, init);
      assert (a + c)[..|a + c| - 1] == a + init;
    }
  }

  /** The weights of two queues one after the other add up. */
  lemma {:induction false} WeightAppend(a: seq<DecipherState>, c: seq<DecipherState>, b: nat)
    ensures Weight(a + c, b) == Weight(a, b) + Weight(c, b)
  {
    if c == [] {
      assert a + c == a;
    } else {
      var init := c[..|c| - 1];
      WeightAppend(a, init, b);
      assert (a + c)[..|a + c| - 1] == a + init;
    }
  }

  /** Queueing the non-terminal successors keeps every queued state fitting
      and on the queue's pattern. */
  lemma PushQueued(queue: seq<DecipherState>, next: seq<DecipherState>, k: nat, pattern: string)
    requires forall i :: 0 <= i < |queue| ==> Queued(queue[i], pattern)
    requires forall i :: 0 <= i < |next| ==> Queued(next[i], pattern) && |next[i].chunks| == k
    ensures forall i :: 0 <= i < |queue + NonTerminal(next)| ==> Queued((queue + NonTerminal(next))[i], pattern)
  {
    NonTerminalQueued(next, k, pattern);
    var kept := NonTerminal(next);
    forall i | 0 <= i < |queue + kept| ensures Queued((queue + kept)[i], pattern) {
      if i >= |queue| {
        assert (queue + kept)[i] == kept[i - |queue|];
      }
    }
  }

  /** The inner `for` loop of `get_line_results`: count the terminal
      successors, push the others onto the queue. */
  method PushSuccessors(queue: seq<DecipherState>, next: seq<DecipherState>)
    returns (newQueue: seq<DecipherState>, found: nat)
    ensures newQueue == queue + NonTerminal(next)
    ensures found == TerminalCount(next)
  {
    newQueue := queue;
    found := 0;
    for i := 0 to |next|
      invariant newQueue == queue + NonTerminal(next[..i])
      invariant found == TerminalCount(next[..i])
    {
      assert next[..i + 1][..i] == next[..i];
      if IsTerminal(next[i]) {
        found := found + 1;
      } else {
        newQueue := newQueue + [next[i]];
      }
    }
    assert next[..|next|] == next;
  }

  /** The loop of `get_line_results` from `init`: pop the last state, count
      its terminal successors and push the others. */
  method CountArrangements(init: DecipherState) returns (result: nat)
    requires Fits(init)
    ensures result == Arrangements(init)
  {
    var b := |init.pattern| + 2;
    var queue := [init];
    result := 0;
    assert queue[..0] == [];
    while queue != []
      invariant forall i :: 0 <= i < |queue| ==> Queued(queue[i], init.pattern)
      invariant result + Owed(queue) == Arrangements(init)
      decreases Weight(queue, b)
    {
      ghost var before := queue;
      var state := queue[|queue| - 1];
      queue := queue[..|queue| - 1];
      ghost var rest := queue;
      assert Owed(before) == Owed(rest) + Arrangements(state);
      var next := NextStates(state);
      var found;
      queue, found := PushSuccessors(queue, next);
      ghost var k := Rest(state);
      PushQueued(rest, next, k, init.pattern);
      assert result + found + Owed(queue) == Arrangements(init) by {
        TallySplit(next, k, init.pattern);
        OwedAppend(rest, NonTerminal(next));
        ArrangementsTally(state);
      }
      result := result + found;
      assert Weight(queue, b) < Weight(before, b) by {
        WeightPop(before, b);
        WeightAppend(rest, NonTerminal(next), b);
        NonTerminalWeight(next, k, b);
        if state.chunks != [] {
          assert |next| <= b - 1 by {
            assert state.pattern == init.pattern;
          }
          PushedBound(|next|, b, Rest(state));
        } else {
          NonTerminalNone(next);
        }
      }
    }
  }

  // ------------------------------------------------------ get_line_results

  /** `repeat_n(pattern, unfold).intersperse(token)`, collected. */
  function UnfoldPattern(pattern: string, unfold: nat, token: string): (r: string)
    ensures unfold > 0 ==> |r| == unfold * |pattern| + (unfold - 1) * |token|
  {
    if unfold == 0 then ""
    else if unfold == 1 then pattern
    else UnfoldPattern(pattern, unfold - 1, token) + token + pattern
  }

  /** `repeat_n(chunks, unfold).flatten()`. */
  function UnfoldChunks(chunks: seq<nat>, unfold: nat): (r: seq<nat>)
    ensures |r| == unfold * |chunks|
  {
    if unfold == 0 then [] else UnfoldChunks(chunks, unfold - 1) + chunks
  }

  /** The sum of the unfolded runs. */
  lemma {:induction false} UnfoldChunksSum(chunks: seq<nat>, unfold: nat)
    ensures Sum(UnfoldChunks(chunks, unfold)) == unfold * Sum(chunks)
  {
    if unfold > 0 {
      UnfoldChunksSum(chunks, unfold - 1);
      SumAppend(UnfoldChunks(chunks, unfold - 1), chunks);
    }
  }

  /** The comma-separated run lengths, `None` where a `parse().unwrap()`
      panics. */
  function ParseChunks(pieces: seq<string>): (r: Option<seq<nat>>)
    ensures r.Some? <==> forall i :: 0 <= i < |pieces| ==> ParseNat(pieces[i]).Some?
    ensures r.Some? ==> |r.value| == |pieces| && forall i :: 0 <= i < |pieces| ==> Some(r.value[i]) == ParseNat(pieces[i])
  {
    if pieces == [] then Some([])
    else
      var tail := ParseChunks(pieces[1..]);
      assert tail.Some? <==> forall i :: 1 <= i < |pieces| ==> ParseNat(pieces[i]).Some? by {
        if tail.None? {
          var i :| 0 <= i < |pieces[1..]| && ParseNat(pieces[1..][i]).None?;
          assert pieces[i + 1] == pieces[1..][i];
        }
      }
      match (ParseNat(pieces[0]), tail)
      case (Some(n), Some(rest)) =>
        var r := [n] + rest;
        assert forall i :: 1 <= i < |r| ==> r[i] == rest[i - 1];
        Some(r)
      case _ => None
  }

  /** The initial state of `get_line_results`: the first word is the
      pattern, the second the runs, both unfolded. `None` where a
      `next().unwrap()` or a `parse().unwrap()` panics. */
  function InitialState(line: string, unfold: nat, token: string): (r: Option<DecipherState>)
    ensures r.Some? <==> |Words(line)| >= 2 && ParseChunks(SplitStr(Words(line)[1], ",")).Some?
    ensures r.Some? ==> (r.value.fixture == "" &&
      r.value.pattern == UnfoldPattern(Words(line)[0], unfold, token) &&
      r.value.chunks == UnfoldChunks(ParseChunks(SplitStr(Words(line)[1], ",")).value, unfold))
  {
    var words := Words(line);
    if |words| < 2 then None
    else
      match ParseChunks(SplitStr(words[1], ","))
      case None => None
      case Some(chunks) => Some(DecipherState(UnfoldPattern(words[0], unfold, token), "", UnfoldChunks(chunks, unfold)))
  }

  /** `get_line_results`: the number of terminal states reachable from the
      initial state of the unfolded line (`Arrangements`), counted through the
      work queue. The
      line must have two words of which the second parses, and the runs must
      fit the pattern (otherwise a subtraction in `next_states` underflows). */
  method GetLineResults(line: string, unfold: nat, token: string) returns (result: nat)
    requires InitialState(line, unfold, token).Some? && Fits(InitialState(line, unfold, token).value)
    ensures result == Arrangements(InitialState(line, unfold, token).value)
  {
    var init := InitialState(line, unfold, token).value;
    result := CountArrangements(init);
  }

  // ------------------------------------------------------------- examples

  /** With no runs left `.###.` is padded to `.###........`. */
  lemma ExamplePad()
    ensures Successors(DecipherState("?###????????", ".###.", [])) ==
      [DecipherState("?###????????", ".###........", [])]
  {
    var s := DecipherState("?###????????", ".###.", []);
    assert Padded(s) == ".###........";
    assert Validate(s, Padded(s));
  }

  /** The candidates for the runs 3, 2, 1 from the start: zero to four
      dots, then `###.`. */
  lemma ExampleFirstRunCandidates(s: DecipherState)
    requires s == DecipherState("?###????????", "", [3, 2, 1])
    ensures Fits(s) && MaxSpace(s) == 4
    ensures Candidate(s, 0) == "###." && Candidate(s, 1) == ".###." && Candidate(s, 2) == "..###."
    ensures Candidate(s, 3) == "...###." && Candidate(s, 4) == "....###."
  {
    assert Sum(s.chunks) == 6;
    assert ChunkText(s.chunks) == "###.";
    assert Repeat('.', 4) == "....";
  }

  /** Only the candidate with one dot puts the run on the pattern's `###`. */
  lemma ExampleFirstRunValid(s: DecipherState)
    requires s == DecipherState("?###????????", "", [3, 2, 1])
    ensures !Validate(s, "###.") && Validate(s, ".###.") && !Validate(s, "..###.")
    ensures !Validate(s, "...###.") && !Validate(s, "....###.")
  {
    assert !Agrees(s.pattern, "###.", 3);
    assert !Agrees(s.pattern, "..###.", 1);
    assert !Agrees(s.pattern, "...###.", 1);
    assert !Agrees(s.pattern, "....###.", 1);
  }

  /** The runs 3, 2, 1 placed from the start: only one dot fits before the
      first run. */
  lemma ExampleFirstRun()
    ensures Successors(DecipherState("?###????????", "", [3, 2, 1])) ==
      [DecipherState("?###????????", ".###.", [2, 1])]
  {
    var s := DecipherState("?###????????", "", [3, 2, 1]);
    ExampleFirstRunCandidates(s);
    ExampleFirstRunValid(s);
    var t := DecipherState(s.pattern, ".###.", [2, 1]);
    assert s.chunks[1..] == [2, 1];
    assert SuccessorsUpTo(s, 1) == [];
    assert SuccessorsUpTo(s, 2) == [t];
    assert SuccessorsUpTo(s, 3) == [t];
    assert SuccessorsUpTo(s, 4) == [t];
  }

  /** Every candidate for the last run 2 after `.###.` agrees with the
      pattern, whose positions from 4 on are all `?`. */
  lemma OneRunValid(s: DecipherState, l: nat)
    requires s == DecipherState("?###????????", ".###.", [2]) && l <= 5
    ensures Fits(s) && MaxSpace(s) == 5
    ensures |Candidate(s, l)| <= |s.pattern| && Validate(s, Candidate(s, l))
  {
    assert Sum(s.chunks) == 2;
    CandidateFits(s, l);
    forall j | |s.fixture| <= j < |Candidate(s, l)| ensures Agrees(s.pattern, Candidate(s, l), j) {
      assert s.pattern[j] == '?';
    }
  }

  /** The successors for the last run 2 after `.###.`: one per number of
      dots from zero to five, in order. */
  lemma OneRunSteps(s: DecipherState)
    requires s == DecipherState("?###????????", ".###.", [2])
    ensures Fits(s) && MaxSpace(s) == 5
    ensures Successors(s) ==
      [DecipherState(s.pattern, Candidate(s, 0), []), DecipherState(s.pattern, Candidate(s, 1), []),
       DecipherState(s.pattern, Candidate(s, 2), []), DecipherState(s.pattern, Candidate(s, 3), []),
       DecipherState(s.pattern, Candidate(s, 4), []), DecipherState(s.pattern, Candidate(s, 5), [])]
  {
    assert s.chunks[1..] == [];
    OneRunValid(s, 0);
    SuccessorsUpToStep(s, 0);
    OneRunValid(s, 1);
    SuccessorsUpToStep(s, 1);
    OneRunValid(s, 2);
    SuccessorsUpToStep(s, 2);
    OneRunValid(s, 3);
    SuccessorsUpToStep(s, 3);
    OneRunValid(s, 4);
    SuccessorsUpToStep(s, 4);
    OneRunValid(s, 5);
    SuccessorsUpToStep(s, 5);
  }

  /** The six candidates written out. */
  lemma OneRunCandidates(s: DecipherState)
    requires s == DecipherState("?###????????", ".###.", [2])
    ensures Candidate(s, 0) == ".###.##" && Candidate(s, 1) == ".###..##" && Candidate(s, 2) == ".###...##"
    ensures Candidate(s, 3) == ".###....##" && Candidate(s, 4) == ".###.....##" && Candidate(s, 5) == ".###......##"
  {
    assert ChunkText(s.chunks) == "##";
    assert Repeat('.', 5) == ".....";
  }

  /** `.###.` with the last run 2: six successors, as the test expects. */
  lemma ExampleOneRun()
    ensures Successors(DecipherState("?###????????", ".###.", [2])) ==
      [DecipherState("?###????????", ".###.##", []),
       DecipherState("?###????????", ".###..##", []),
       DecipherState("?###????????", ".###...##", []),
       DecipherState("?###????????", ".###....##", []),
       DecipherState("?###????????", ".###.....##", []),
       DecipherState("?###????????", ".###......##", [])]
  {
    var s := DecipherState("?###????????", ".###.", [2]);
    OneRunSteps(s);
    OneRunCandidates(s);
  }

  /** After `.###.` the runs 2, 3 leave room for at most one extra dot, and
      the pattern's `?`s accept both placements. */
  lemma ExampleTwoRuns()
    ensures Successors(DecipherState("?###????????", ".###.", [2, 3])) ==
      [DecipherState("?###????????", ".###.##.", [3]), DecipherState("?###????????", ".###..##.", [3])]
  {
    var s := DecipherState("?###????????", ".###.", [2, 3]);
    assert Sum(s.chunks) == 5;
    assert MaxSpace(s) == 1;
    assert ChunkText(s.chunks) == "##.";
    assert Candidate(s, 0) == ".###.##.";
    assert Candidate(s, 1) == ".###..##.";
    assert Validate(s, ".###.##.") && Validate(s, ".###..##.");
    assert s.chunks[1..] == [3];
    assert SuccessorsUpTo(s, 1) == [DecipherState(s.pattern, ".###.##.", [3])];
  }
}
