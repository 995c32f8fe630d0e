/** Day 8: a network of nodes, each with a left and a right neighbour, walked
    by repeating a string of `L`/`R` instructions. */
module Day8Network {
  import opened Wrappers
  import opened Strings
  import opened Collections

  /** A line `AAA = (BBB, CCC)`. */
  datatype MapNode = MapNode(id: string, left: string, right: string)

  /** The instruction line and the nodes keyed by their ids. */
  datatype Navigation = Navigation(instructions: string, nodes: map<string, MapNode>)

  /** Where a journey is in its instruction cycle, and at which node. */
  datatype Position = Position(position: nat, nodeId: string)

  // --------------------------------------------------------------- parsing

  /** The characters `MapNode::parse` splits on. */
  const NodeSeps: set<char> := {'=', ' ', '(', ',', ')'}

  /** A token the split can produce: non-empty and free of separators. */
  ghost predicate Label(s: string) {
    s != [] && forall j :: 0 <= j < |s| ==> s[j] !in NodeSeps
  }

  /** The pieces that are not empty, in order. */
  function NonEmpty(parts: seq<string>): seq<string> {
    if parts == [] then []
    else if parts[0] == [] then NonEmpty(parts[1..])
    else [parts[0]] + NonEmpty(parts[1..])
  }

  /** The kept pieces are non-empty pieces of the input. */
  lemma {:induction false} NonEmptyKeeps(parts: seq<string>)
    ensures forall i :: 0 <= i < |NonEmpty(parts)| ==> NonEmpty(parts)[i] != [] && NonEmpty(parts)[i] in parts
  {
    if parts != [] {
      NonEmptyKeeps(parts[1..]);
      assert forall t :: t in parts[1..] ==> t in parts;
    }
  }

  function Tokens(line: string): seq<string> {
    NonEmpty(SplitAny(line, NodeSeps))
  }

  /** `MapNode::parse`: exactly three tokens, id, left and right; `None` where
      `collect_tuple().unwrap()` panics. */
  function ParseNode(line: string): Option<MapNode> {
    var t := Tokens(line);
    if |t| == 3 then Some(MapNode(t[0], t[1], t[2])) else None
  }

  /** A parsed node's fields are tokens: non-empty, without separators. */
  lemma ParseNodeLabels(line: string)
    requires ParseNode(line).Some?
    ensures Label(ParseNode(line).value.id) && Label(ParseNode(line).value.left)
    ensures Label(ParseNode(line).value.right)
  {
    var parts := SplitAny(line, NodeSeps);
    var t := Tokens(line);
    SplitAnyPieces(line, NodeSeps);
    NonEmptyKeeps(parts);
    forall i | 0 <= i < |t|
      ensures Label(t[i])
    {
      var k :| 0 <= k < |parts| && parts[k] == t[i];
    }
  }

  /** The line format of a node. */
  function FormatNode(n: MapNode): string {
    n.id + " = (" + n.left + ", " + n.right + ")"
  }

  /** The formatted node as pieces and single separators. */
  lemma FormatNodeShape(n: MapNode)
    ensures FormatNode(n) ==
      n.id + ([' '] + ("" + (['='] + ("" + ([' '] + ("" + (['('] +
      (n.left + ([','] + ("" + ([' '] + (n.right + ([')'] + "")))))))))))))
  {
  }

  /** The pieces of a node line, around the separators. */
  function NodePieces(n: MapNode): seq<string> {
    [n.id] + ([""] + ([""] + ([""] + ([n.left] + ([""] + ([n.right] + [""]))))))
  }

  lemma {:induction false} SplitFormatNode(n: MapNode)
    requires Label(n.id) && Label(n.left) && Label(n.right)
    ensures SplitAny(FormatNode(n), NodeSeps) == NodePieces(n)
  {
    FormatNodeShape(n);
    var s6 := n.right + ([')'] + "");
    var s4 := "" + ([' '] + s6);
    var s2 := n.left + ([','] + s4);
    var t3 := "" + (['('] + s2);
    var t1 := "" + ([' '] + t3);
    var u := "" + (['='] + t1);
    assert SplitAny(s6, NodeSeps) == [n.right] + [""] by {
      assert SplitAny("", NodeSeps) == [""];
      SplitAnyPiece(n.right, ')', "", NodeSeps);
    }
    assert SplitAny(s2, NodeSeps) == [n.left] + ([""] + ([n.right] + [""])) by {
      SplitAnyPiece("", ' ', s6, NodeSeps);
      SplitAnyPiece(n.left, ',', s4, NodeSeps);
    }
    assert SplitAny(t1, NodeSeps) == [""] + ([""] + ([n.left] + ([""] + ([n.right] + [""])))) by {
      SplitAnyPiece("", '(', s2, NodeSeps);
      SplitAnyPiece("", ' ', t3, NodeSeps);
    }
    SplitAnyPiece("", '=', t1, NodeSeps);
    SplitAnyPiece(n.id, ' ', u, NodeSeps);
  }

  lemma NonEmptyPieces(n: MapNode)
    requires n.id != [] && n.left != [] && n.right != []
    ensures NonEmpty(NodePieces(n)) == [n.id, n.left, n.right]
  {
    var p6 := [n.right] + [""];
    var p4 := [n.left] + ([""] + p6);
    var p1 := [""] + ([""] + ([""] + p4));
    assert NonEmpty([""]) == [];
    assert NonEmpty(p6) == [n.right];
    assert NonEmpty([""] + p6) == [n.right];
    assert NonEmpty(p4) == [n.left] + [n.right];
    assert NonEmpty([""] + p4) == [n.left] + [n.right];
    assert NonEmpty([""] + ([""] + p4)) == [n.left] + [n.right];
    assert NonEmpty(p1) == [n.left] + [n.right];
    assert NonEmpty([n.id] + p1) == [n.id] + ([n.left] + [n.right]);
  }

  /** Parsing the formatted node gives the node back. */
  lemma ParseFormatNode(n: MapNode)
    requires Label(n.id) && Label(n.left) && Label(n.right)
    ensures ParseNode(FormatNode(n)) == Some(n)
  {
    SplitFormatNode(n);
    NonEmptyPieces(n);
  }

  /** Every line parsed, or `None` when one of them does not parse. */
  function ParseNodes(lines: seq<string>): (r: Option<seq<MapNode>>)
    ensures r.Some? <==> forall i :: 0 <= i < |lines| ==> ParseNode(lines[i]).Some?
    ensures r.Some? ==> |r.value| == |lines| && forall i :: 0 <= i < |lines| ==> ParseNode(lines[i]) == Some(r.value[i])
  {
    if lines == [] then Some([])
    else
      match (ParseNode(lines[0]), ParseNodes(lines[1..]))
      case (Some(n), Some(rest)) => Some([n] + rest)
      case _ => None
  }

  /** `collect()` of `(id, node)` pairs into a `HashMap`: a later node with
      the same id replaces an earlier one. */
  function Collect(nodes: seq<MapNode>): (r: map<string, MapNode>)
    ensures forall k :: k in r ==> r[k].id == k
  {
    if nodes == [] then map[]
    else
      var n := nodes[|nodes| - 1];
      Collect(nodes[..|nodes| - 1])[n.id := n]
  }

  /** Node `i` is the last one with id `k`. */
  ghost predicate LastWithId(nodes: seq<MapNode>, i: nat, k: string) {
    i < |nodes| && nodes[i].id == k && forall j :: i < j < |nodes| ==> nodes[j].id != k
  }

  /** The map's keys are exactly the ids of the nodes. */
  lemma {:induction false} CollectKeys(nodes: seq<MapNode>)
    ensures forall k :: k in Collect(nodes) <==> exists i :: 0 <= i < |nodes| && nodes[i].id == k
  {
    if nodes != [] {
      var init := nodes[..|nodes| - 1];
      CollectKeys(init);
      forall k | exists i :: 0 <= i < |nodes| && nodes[i].id == k
        ensures k in Collect(nodes)
      {
        var i :| 0 <= i < |nodes| && nodes[i].id == k;
        if i < |init| {
          assert init[i].id == k;
        }
      }
      forall k | k in Collect(nodes)
        ensures exists i :: 0 <= i < |nodes| && nodes[i].id == k
      {
        if k != nodes[|nodes| - 1].id {
          assert Collect(nodes) == Collect(init)[nodes[|nodes| - 1].id := nodes[|nodes| - 1]];
          assert k in Collect(init);
          var i :| 0 <= i < |init| && init[i].id == k;
          assert nodes[i].id == k;
        }
      }
    }
  }

  /** Each key holds the last node with that id. */
  lemma {:induction false} CollectLast(nodes: seq<MapNode>)
    ensures forall k :: k in Collect(nodes) ==> exists i: nat :: LastWithId(nodes, i, k) && Collect(nodes)[k] == nodes[i]
  {
    if nodes != [] {
      var init := nodes[..|nodes| - 1];
      var last := |nodes| - 1;
      CollectLast(init);
      forall k | k in Collect(nodes)
        ensures exists i: nat :: LastWithId(nodes, i, k) && Collect(nodes)[k] == nodes[i]
      {
        if k == nodes[last].id {
          assert LastWithId(nodes, last, k);
        } else {
          var i: nat :| LastWithId(init, i, k) && Collect(init)[k] == init[i];
          assert LastWithId(nodes, i, k);
        }
      }
    }
  }

  /** `Navigation::load_map`: the first line is the instructions, the second
      is skipped, the rest are nodes. `None` where the code panics: no first
      line, or a node line that does not parse. */
  function LoadMap(lines: seq<string>): (r: Option<Navigation>)
    ensures r.Some? <==> |lines| >= 1 && forall i :: 2 <= i < |lines| ==> ParseNode(lines[i]).Some?
    ensures r.Some? ==> r.value.instructions == lines[0]
    ensures r.Some? ==> forall k :: k in r.value.nodes ==> r.value.nodes[k].id == k
  {
    if lines == [] then None
    else
      var body := if |lines| >= 2 then lines[2..] else [];
      assert forall i :: 2 <= i < |lines| ==> lines[i] == body[i - 2];
      match ParseNodes(body)
      case Some(nodes) => Some(Navigation(lines[0], Collect(nodes)))
      case None => None
  }

  ghost predicate Labelled(n: MapNode) {
    Label(n.id) && Label(n.left) && Label(n.right)
  }

  /** The node lines of a file. */
  function FormatLines(nodes: seq<MapNode>): (r: seq<string>)
    ensures |r| == |nodes|
  {
    if nodes == [] then [] else [FormatNode(nodes[0])] + FormatLines(nodes[1..])
  }

  lemma {:induction false} ParseFormatLines(nodes: seq<MapNode>)
    requires forall i :: 0 <= i < |nodes| ==> Labelled(nodes[i])
    ensures ParseNodes(FormatLines(nodes)) == Some(nodes)
  {
    if nodes != [] {
      ParseFormatNode(nodes[0]);
      ParseFormatLines(nodes[1..]);
      assert FormatLines(nodes)[1..] == FormatLines(nodes[1..]);
      assert nodes == [nodes[0]] + nodes[1..];
    }
  }

  /** Loading a file written from an instruction line and nodes gives the
      instructions and the collected nodes back. */
  lemma LoadFormatted(instructions: string, nodes: seq<MapNode>)
    requires forall i :: 0 <= i < |nodes| ==> Labelled(nodes[i])
    ensures LoadMap([instructions, ""] + FormatLines(nodes)) == Some(Navigation(instructions, Collect(nodes)))
  {
    ParseFormatLines(nodes);
    assert ([instructions, ""] + FormatLines(nodes))[2..] == FormatLines(nodes);
  }

  // --------------------------------------------------------------- walking

  /** The instruction read at a step count: the instructions repeat. */
  function Instruction(nav: Navigation, position: nat): (c: char)
    requires |nav.instructions| > 0
    ensures c in nav.instructions
  {
    nav.instructions[position % |nav.instructions|]
  }

  /** One step of a journey at `node` after `position` steps; `None` where
      `Journey::next` panics: no instructions, an instruction other than `L`
      or `R`, or a neighbour that is not in the map. */
  function Step(nav: Navigation, node: MapNode, position: nat): (r: Option<MapNode>)
    ensures r.Some? <==> (|nav.instructions| > 0 &&
      ((Instruction(nav, position) == 'R' && node.right in nav.nodes) ||
       (Instruction(nav, position) == 'L' && node.left in nav.nodes)))
    ensures r.Some? && Instruction(nav, position) == 'R' ==> r.value == nav.nodes[node.right]
    ensures r.Some? && Instruction(nav, position) == 'L' ==> r.value == nav.nodes[node.left]
  {
    if |nav.instructions| == 0 then None
    else
      var c := Instruction(nav, position);
      var target := if c == 'R' then Some(node.right) else if c == 'L' then Some(node.left) else None;
      if target.Some? && target.value in nav.nodes then Some(nav.nodes[target.value]) else None
  }

  /** A network a journey can walk forever: instructions only `L` and `R`, and
      every neighbour a node. */
  ghost predicate Closed(nav: Navigation) {
    |nav.instructions| > 0 &&
    (forall i :: 0 <= i < |nav.instructions| ==> nav.instructions[i] in {'L', 'R'}) &&
    forall n :: n in nav.nodes.Values ==> n.left in nav.nodes && n.right in nav.nodes
  }

  /** In a closed network every step from a node of the map succeeds and
      lands on a node of the map. */
  lemma ClosedStep(nav: Navigation, node: MapNode, position: nat)
    requires Closed(nav) && node in nav.nodes.Values
    ensures Step(nav, node, position).Some?
    ensures Step(nav, node, position).value in nav.nodes.Values
  {
    var k :| k in nav.nodes && nav.nodes[k] == node;
    var c := Instruction(nav, position);
    assert c == nav.instructions[position % |nav.instructions|];
  }

  /** The node after `n` steps, `None` when a step panics. */
  function WalkN(nav: Navigation, node: MapNode, position: nat, n: nat): Option<MapNode>
    decreases n
  {
    if n == 0 then Some(node)
    else
      match Step(nav, node, position)
      case None => None
      case Some(next) => WalkN(nav, next, position + 1, n - 1)
  }

  /** The number of steps to the first node `ZZZ`, looking at most `fuel`
      steps past the first; `None` when a step panics or the fuel runs out. */
  function Search(nav: Navigation, node: MapNode, position: nat, fuel: nat): Option<nat>
    decreases fuel
  {
    match Step(nav, node, position)
    case None => None
    case Some(next) =>
      if next.id == "ZZZ" then Some(1)
      else if fuel == 0 then None
      else
        match Search(nav, next, position + 1, fuel - 1)
        case None => None
        case Some(n) => Some(n + 1)
  }

  /** The count found by the search is the first step that reaches `ZZZ`. */
  lemma {:induction false} SearchFindsFirst(nav: Navigation, node: MapNode, position: nat, fuel: nat)
    requires Search(nav, node, position, fuel).Some?
    ensures Search(nav, node, position, fuel).value >= 1
    ensures WalkN(nav, node, position, Search(nav, node, position, fuel).value).Some?
    ensures WalkN(nav, node, position, Search(nav, node, position, fuel).value).value.id == "ZZZ"
    ensures forall m :: 1 <= m < Search(nav, node, position, fuel).value ==>
      WalkN(nav, node, position, m).Some? && WalkN(nav, node, position, m).value.id != "ZZZ"
    decreases fuel
  {
    var next := Step(nav, node, position).value;
    var n := Search(nav, node, position, fuel).value;
    assert WalkN(nav, node, position, 1) == WalkN(nav, next, position + 1, 0);
    if next.id != "ZZZ" {
      SearchFindsFirst(nav, next, position + 1, fuel - 1);
      forall m | 1 <= m < n
        ensures WalkN(nav, node, position, m).Some? && WalkN(nav, node, position, m).value.id != "ZZZ"
      {
        assert WalkN(nav, node, position, m) == WalkN(nav, next, position + 1, m - 1);
      }
    }
  }

  /** `Journey`: a walk through the network, at `node` after `position`
      steps. */
  class Journey {
    const nav: Navigation
    var node: MapNode
    var position: nat

    /** `Navigation::journey`: starting at the node `start`. */
    constructor (nav: Navigation, start: string)
      requires start in nav.nodes
      ensures this.nav == nav && node == nav.nodes[start] && position == 0
    {
      this.nav := nav;
      node := nav.nodes[start];
      position := 0;
    }

    /** `Journey::pos`: the place in the instruction cycle and the node. */
    function Pos(): (p: Position)
      reads this
      requires |nav.instructions| > 0
      ensures p.position < |nav.instructions| && nav.instructions[p.position] == Instruction(nav, position)
      ensures p.nodeId == node.id
    {
      Position(position % |nav.instructions|, node.id)
    }

    /** `Journey::next`: one step; the code always yields the new node. */
    method Next() returns (r: Option<MapNode>)
      requires Step(nav, node, position).Some?
      modifies this
      ensures Some(node) == Step(nav, old(node), old(position))
      ensures position == old(position) + 1
      ensures r == Some(node)
    {
      var c := nav.instructions[position % |nav.instructions|];
      var target := if c == 'R' then node.right else node.left;
      node := nav.nodes[target];
      position := position + 1;
      r := Some(node);
    }
  }

  /** `example1::compute` on the lines of the input: the steps from `AAA` to
      the first `ZZZ`. */
  method Compute1(lines: seq<string>, ghost fuel: nat) returns (steps: nat)
    requires LoadMap(lines).Some? && "AAA" in LoadMap(lines).value.nodes
    requires Search(LoadMap(lines).value, LoadMap(lines).value.nodes["AAA"], 0, fuel).Some?
    ensures Some(steps) == Search(LoadMap(lines).value, LoadMap(lines).value.nodes["AAA"], 0, fuel)
  {
    var nav := LoadMap(lines).value;
    steps := StepsToZ(nav, fuel);
  }

  /** A search that does not stop at the next node goes on from it. */
  lemma SearchNext(nav: Navigation, node: MapNode, position: nat, fuel: nat)
    requires Search(nav, node, position, fuel).Some?
    requires Step(nav, node, position).value.id != "ZZZ"
    ensures fuel > 0
    ensures Search(nav, Step(nav, node, position).value, position + 1, fuel - 1).Some?
    ensures Search(nav, node, position, fuel).value ==
      Search(nav, Step(nav, node, position).value, position + 1, fuel - 1).value + 1
  {
  }

  /** `journey("AAA").take_while(..).count() + 1`: the nodes passed before
      the first `ZZZ`, and the step onto it. */
  method StepsToZ(nav: Navigation, ghost fuel: nat) returns (steps: nat)
    requires "AAA" in nav.nodes && Search(nav, nav.nodes["AAA"], 0, fuel).Some?
    ensures Some(steps) == Search(nav, nav.nodes["AAA"], 0, fuel)
  {
    var journey := new Journey(nav, "AAA");
    ghost var total := Search(nav, journey.node, 0, fuel).value;
    ghost var left := fuel;
    var count := 0;
    while true
      invariant journey.nav == nav
      invariant Search(nav, journey.node, journey.position, left).Some?
      invariant count + Search(nav, journey.node, journey.position, left).value == total
      decreases left
    {
      ghost var before := journey.node;
      ghost var at := journey.position;
      var next := journey.Next();
      if next.value.id == "ZZZ" {
        steps := count + 1;
        return;
      }
      SearchNext(nav, before, at, left);
      count := count + 1;
      left := left - 1;
    }
  }

  /** `Navigation::ghost_start`: the ids ending in `A`, each once, in the
      order the `HashMap` visits them. */
  method GhostStart(nav: Navigation) returns (starts: seq<string>)
    ensures Distinct(starts)
    ensures forall k :: k in starts <==> k in nav.nodes && EndsWith(k, "A")
  {
    starts := [];
    var rest := nav.nodes.Keys;
    while rest != {}
      invariant rest <= nav.nodes.Keys
      invariant Distinct(starts)
      invariant forall k :: k in starts <==> k in nav.nodes && k !in rest && EndsWith(k, "A")
      decreases |rest|
    {
      var k :| k in rest;
      if |k| >= 1 && k[|k| - 1..] == "A" {
        starts := starts + [k];
      }
      rest := rest - {k};
    }
  }

  /** `GhostZeroes`: the step counts between the `Z` nodes of a ghost's
      walk, replayed from `loopBackIndex` once the last is reached; `pos` is
      the running step count. */
  class GhostZeroes {
    var pos: nat
    var idx: nat
    const zeros: seq<(Position, nat)>
    const loopBackIndex: nat

    /** The shape `find_loop` produces: at least two entries, and the loop
        goes back to an entry before the last. A valid iterator can always
        take its next step. */
    ghost predicate Valid()
      reads this
      ensures Valid() ==> idx + 1 < |zeros|
    {
      |zeros| >= 2 && loopBackIndex < |zeros| - 1 && idx < |zeros| - 1
    }

    /** `GhostZeroes::new`. */
    constructor (zeros: seq<(Position, nat)>, loopBackIndex: nat)
      ensures pos == 0 && idx == 0 && this.zeros == zeros && this.loopBackIndex == loopBackIndex
      ensures |zeros| >= 2 && loopBackIndex < |zeros| - 1 ==> Valid()
    {
      pos := 0;
      idx := 0;
      this.zeros := zeros;
      this.loopBackIndex := loopBackIndex;
    }

    /** `GhostZeroes::next`: advance to the next entry, adding its step
        count; past the last entry go back to `loopBackIndex`. */
    method Next() returns (r: Option<nat>)
      requires idx + 1 < |zeros|
      modifies this
      ensures pos == old(pos) + zeros[old(idx) + 1].1 && pos >= old(pos)
      ensures idx == if old(idx) + 1 == |zeros| - 1 then loopBackIndex else old(idx) + 1
      ensures r == Some(pos)
      ensures old(Valid()) ==> Valid()
    {
      idx := idx + 1;
      pos := pos + zeros[idx].1;
      if idx == |zeros| - 1 {
        idx := loopBackIndex;
      }
      r := Some(pos);
    }
  }

  // --------------------------------------------------------------- example

  function ExampleNav(): Navigation {
    Navigation("LLR", map[
      "AAA" := MapNode("AAA", "BBB", "BBB"),
      "BBB" := MapNode("BBB", "AAA", "ZZZ"),
      "ZZZ" := MapNode("ZZZ", "ZZZ", "ZZZ")])
  }

  /** The nodes of the second example file. */
  lemma ExampleCollect()
    ensures Collect([MapNode("AAA", "BBB", "BBB"), MapNode("BBB", "AAA", "ZZZ"), MapNode("ZZZ", "ZZZ", "ZZZ")]) == ExampleNav().nodes
  {
    var a := MapNode("AAA", "BBB", "BBB");
    var b := MapNode("BBB", "AAA", "ZZZ");
    var z := MapNode("ZZZ", "ZZZ", "ZZZ");
    assert [a][..0] == [];
    assert Collect([a]) == map["AAA" := a];
    assert [a, b][..1] == [a];
    assert Collect([a, b]) == map["AAA" := a, "BBB" := b];
    assert [a, b, z][..2] == [a, b];
    assert Collect([a, b, z]) == map["AAA" := a, "BBB" := b, "ZZZ" := z];
  }

  /** On the second example `ZZZ` is reached after six steps. */
  lemma ExampleSteps()
    ensures Search(ExampleNav(), ExampleNav().nodes["AAA"], 0, 5) == Some(6)
  {
    var nav := ExampleNav();
    var a := nav.nodes["AAA"];
    var b := nav.nodes["BBB"];
    assert Step(nav, a, 0) == Some(b);
    assert Step(nav, b, 1) == Some(a);
    assert Step(nav, a, 2) == Some(b);
    assert Step(nav, b, 3) == Some(a);
    assert Step(nav, a, 4) == Some(b);
    assert Step(nav, b, 5) == Some(nav.nodes["ZZZ"]);
    assert Search(nav, b, 5, 0) == Some(1);
  }
}
