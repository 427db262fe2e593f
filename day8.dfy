/** Day 8: walking a left/right network from `AAA` to `ZZZ`
    (adventofcode2023/days/day8.py). */
module Day8 {
  import opened Wrappers
  import Text
  import Sums

  /** Each node names its left and its right neighbour. */
  type Network = map<string, (string, string)>

  /** One parsed line: the node and its two neighbours. */
  type Node = (string, (string, string))

  // ---------------------------------------------------------------------------
  // Reading the network

  /** One line `K = (L, R)`: the key is the stripped text before the `=`;
      after it, the text splits at `", "` into exactly two parts, the left
      neighbour is the stripped first part without its first character (the
      parenthesis) and the right neighbour the second part without its last
      character.  Unpacking a split into the wrong number of parts raises
      ValueError. */
  function ParseNode(line: string): (r: Result<Node>)
    ensures r.Err? ==> r.failure == ValueError
  {
    var halves := Text.Split(line, "=");
    if |halves| != 2 then Err(ValueError)
    else
      var branches := Text.Split(halves[1], ", ");
      if |branches| != 2 then Err(ValueError)
      else
        var first := Text.Strip(branches[0]);
        Ok((Text.Strip(halves[0]), (Text.Slice(first, 1, |first|), Text.Slice(branches[1], 0, -1))))
  }

  /** The dictionary the parsing loop builds: each line assigns its key, so a
      later line for the same key replaces an earlier one. */
  function NetworkOf(nodes: seq<Node>): Network
  {
    if nodes == [] then map[]
    else NetworkOf(nodes[..|nodes| - 1])[nodes[|nodes| - 1].0 := nodes[|nodes| - 1].1]
  }

  /** A key is in the network exactly when some line names it, and it maps
      to the neighbours of the last such line. */
  lemma {:induction false} NetworkOfLookup(nodes: seq<Node>, key: string)
    ensures key in NetworkOf(nodes) <==> exists i :: 0 <= i < |nodes| && nodes[i].0 == key
    ensures forall i :: (0 <= i < |nodes| && nodes[i].0 == key &&
                         forall j :: i < j < |nodes| ==> nodes[j].0 != key) ==> NetworkOf(nodes)[key] == nodes[i].1
  {
    if nodes != [] {
      var init := nodes[..|nodes| - 1];
      var last := nodes[|nodes| - 1];
      NetworkOfLookup(init, key);
      assert NetworkOf(nodes) == NetworkOf(init)[last.0 := last.1];
      assert forall i :: 0 <= i < |init| ==> init[i] == nodes[i];
      if last.0 != key {
        assert key in NetworkOf(nodes) <==> key in NetworkOf(init);
      }
    }
  }

  /** `parse_input`: line 0 holds the instructions and every line from
      index 2 on holds one node; the first line that is not a node raises
      ValueError. */
  function ParseInput(input: string): Result<(string, Network)>
  {
    var lines := Text.Split(input, "\n");
    match Sums.Collect(ParseNode, Text.Slice(lines, 2, |lines|)) {
      case Err(e) => Err(e)
      case Ok(nodes) => Ok((lines[0], NetworkOf(nodes)))
    }
  }

  /** `parse_input` as the source runs it: one dictionary assignment per line. */
  method ReadInput(input: string) returns (r: Result<(string, Network)>)
    ensures r == ParseInput(input)
  {
    var lines := Text.Split(input, "\n");
    var instructions := lines[0];
    var rest := Text.Slice(lines, 2, |lines|);
    var network: Network := map[];
    ghost var nodes: seq<Node> := [];
    for k := 0 to |rest|
      invariant |nodes| == k
      invariant forall i :: 0 <= i < k ==> ParseNode(rest[i]) == Ok(nodes[i])
      invariant network == NetworkOf(nodes)
    {
      var node := ParseNode(rest[k]);
      if node.Err? {
        Sums.CollectFirstError(ParseNode, rest, k);
        return Err(node.failure);
      }
      var (key, branches) := node.value;
      network := network[key := branches];
      assert (nodes + [node.value])[..|nodes|] == nodes;
      nodes := nodes + [node.value];
    }
    Sums.CollectAllOk(ParseNode, rest, nodes);
    return Ok((instructions, network));
  }

  // ---------------------------------------------------------------------------
  // The input format

  /** A node name: non-empty, without whitespace, `=` or `,`. */
  predicate Label(s: string)
  {
    |s| > 0 && forall j :: 0 <= j < |s| ==> !Text.IsSpace(s[j]) && s[j] != '=' && s[j] != ','
  }

  /** The text after the `=` of a node line. */
  function Branches(left: string, right: string): string
  {
    " (" + left + ", " + (right + ")")
  }

  /** The line `K = (L, R)`. */
  function NodeLine(node: Node): string
  {
    node.0 + " " + "=" + Branches(node.1.0, node.1.1)
  }

  /** Reading the line of a node gives the node back. */
  lemma ParseNodeLine(node: Node)
    requires Label(node.0) && Label(node.1.0) && Label(node.1.1)
    ensures ParseNode(NodeLine(node)) == Ok(node)
  {
    var (key, (left, right)) := node;
    NodeLineHalves(node);
    Text.StripTrailingSpace(key);
    BranchesParts(left, right);
    LeftOfParts(left);
    RightOfParts(right);
  }

  lemma NodeLineHalves(node: Node)
    requires Label(node.0) && Label(node.1.0) && Label(node.1.1)
    ensures Text.Split(NodeLine(node), "=") == [node.0 + " ", Branches(node.1.0, node.1.1)]
  {
    BranchesLack(node.1.0, node.1.1, '=');
    Text.SplitAtOnlyChar(node.0 + " ", Branches(node.1.0, node.1.1), '=');
  }

  lemma BranchesParts(left: string, right: string)
    requires Label(left) && Label(right)
    ensures Text.Split(Branches(left, right), ", ") == [" (" + left, right + ")"]
  {
    Text.SplitAtOnlySep(" (" + left, right + ")", ", ");
  }

  lemma LeftOfParts(left: string)
    requires Label(left)
    ensures Text.Slice(Text.Strip(" (" + left), 1, |Text.Strip(" (" + left)|) == left
  {
    var first := "(" + left;
    Text.StripPadded(first, false);
    assert " (" + left == " " + first + "";
    assert first[1..|first|] == left;
  }

  lemma RightOfParts(right: string)
    ensures Text.Slice(right + ")", 0, -1) == right
  {
    assert (right + ")")[0..|right|] == right;
  }

  /** The text after the `=` has no `c` that its names lack, besides the
      punctuation around them. */
  lemma BranchesLack(left: string, right: string, c: char)
    requires c != ' ' && c != '(' && c != ',' && c != ')'
    requires forall j :: 0 <= j < |left| ==> left[j] != c
    requires forall j :: 0 <= j < |right| ==> right[j] != c
    ensures forall j :: 0 <= j < |Branches(left, right)| ==> Branches(left, right)[j] != c
  {
  }

  /** A node line has no line break. */
  lemma NodeLineLacksBreak(node: Node)
    requires Label(node.0) && Label(node.1.0) && Label(node.1.1)
    ensures forall j :: 0 <= j < |NodeLine(node)| ==> NodeLine(node)[j] != '\n'
  {
    BranchesLack(node.1.0, node.1.1, '\n');
  }

  /** The lines of the nodes, in order. */
  function NodeLines(nodes: seq<Node>): (lines: seq<string>)
    ensures |lines| == |nodes| && forall i :: 0 <= i < |nodes| ==> lines[i] == NodeLine(nodes[i])
  {
    if nodes == [] then [] else [NodeLine(nodes[0])] + NodeLines(nodes[1..])
  }

  /** Every node in the list has well-formed names. */
  predicate Labelled(nodes: seq<Node>)
  {
    forall i :: 0 <= i < |nodes| ==> Label(nodes[i].0) && Label(nodes[i].1.0) && Label(nodes[i].1.1)
  }

  /** The puzzle text: the instructions, an empty line, one line per node. */
  function InputText(instructions: string, nodes: seq<Node>): string
  {
    Text.Join([instructions, ""] + NodeLines(nodes), "\n")
  }

  /** Reading the puzzle text gives the instructions and the dictionary of
      its nodes back, for any instructions without a line break. */
  lemma ParseInputText(instructions: string, nodes: seq<Node>)
    requires forall j :: 0 <= j < |instructions| ==> instructions[j] != '\n'
    requires Labelled(nodes)
    ensures ParseInput(InputText(instructions, nodes)) == Ok((instructions, NetworkOf(nodes)))
  {
    var lines := [instructions, ""] + NodeLines(nodes);
    InputLines(instructions, nodes);
    assert Text.Slice(lines, 2, |lines|) == NodeLines(nodes);
    NodeLinesParse(nodes);
  }

  lemma InputLines(instructions: string, nodes: seq<Node>)
    requires forall j :: 0 <= j < |instructions| ==> instructions[j] != '\n'
    requires Labelled(nodes)
    ensures Text.Split(InputText(instructions, nodes), "\n") == [instructions, ""] + NodeLines(nodes)
  {
    var lines := [instructions, ""] + NodeLines(nodes);
    forall k, j | 0 <= k < |lines| && 0 <= j < |lines[k]| ensures lines[k][j] != '\n' {
      if k >= 2 {
        NodeLineLacksBreak(nodes[k - 2]);
      }
    }
    Text.SplitOfJoin(lines, '\n');
  }

  lemma NodeLinesParse(nodes: seq<Node>)
    requires Labelled(nodes)
    ensures Sums.Collect(ParseNode, NodeLines(nodes)) == Ok(nodes)
  {
    forall i | 0 <= i < |nodes| ensures ParseNode(NodeLines(nodes)[i]) == Ok(nodes[i]) {
      ParseNodeLine(nodes[i]);
    }
    Sums.CollectAllOk(ParseNode, NodeLines(nodes), nodes);
  }

  // ---------------------------------------------------------------------------
  // Walking the network

  /** One move from `node`: to the right neighbour on `R`, to the left one on
      any other instruction; a node missing from the network raises KeyError. */
  function Next(network: Network, node: string, instruction: char): (r: Result<string>)
    ensures r.Err? <==> node !in network
    ensures r.Err? ==> r.failure == KeyError
    ensures r.Ok? ==> r.value == if instruction == 'R' then network[node].1 else network[node].0
  {
    if node !in network then Err(KeyError)
    else if instruction == 'R' then Ok(network[node].1) else Ok(network[node].0)
  }

  /** The index of the instruction that move `m` (counted from 0) follows:
      0, 1, …, n - 1 and round again. */
  function Position(n: nat, m: nat): (p: nat)
    requires n > 0
    ensures p < n
  {
    if m == 0 then 0
    else var q := Position(n, m - 1); if q + 1 == n then 0 else q + 1
  }

  /** The reference walk: where the walk from `AAA` stands after `n` moves,
      the instructions being followed round and round. */
  function NodeAfter(instructions: string, network: Network, n: nat): Result<string>
    requires |instructions| > 0
  {
    if n == 0 then Ok("AAA")
    else match NodeAfter(instructions, network, n - 1) {
      case Err(e) => Err(e)
      case Ok(node) => Next(network, node, instructions[Position(|instructions|, n - 1)])
    }
  }

  /** `s` is the first move count at which the walk stands on `ZZZ`. */
  predicate FirstArrival(instructions: string, network: Network, from: nat, s: nat)
    requires |instructions| > 0
  {
    from < s && NodeAfter(instructions, network, s) == Ok("ZZZ") &&
    forall m :: from < m < s ==> NodeAfter(instructions, network, m).Ok? && NodeAfter(instructions, network, m) != Ok("ZZZ")
  }

  /** The walk from `node`, which is where the walk stands after `taken`
      moves, for at most `fuel` more moves: the number of moves when `ZZZ` is
      first reached.  The source repeats the instructions forever, so an
      empty instruction string, or a walk that never reaches `ZZZ`, runs out
      of fuel here. */
  function StepsFrom(instructions: string, network: Network, node: string, taken: nat, fuel: nat): (r: Result<nat>)
    ensures r.Ok? ==> taken < r.value <= taken + fuel
    ensures r.Err? ==> r.failure == KeyError || r.failure == OutOfFuel
    decreases fuel
  {
    if |instructions| == 0 || fuel == 0 then Err(OutOfFuel)
    else match Next(network, node, instructions[Position(|instructions|, taken)]) {
      case Err(e) => Err(e)
      case Ok(next) =>
        if next == "ZZZ" then Ok(taken + 1)
        else StepsFrom(instructions, network, next, taken + 1, fuel - 1)
    }
  }

  /** `get_steps_to_end` within `fuel` moves. */
  function StepsToEnd(instructions: string, network: Network, fuel: nat): Result<nat>
  {
    StepsFrom(instructions, network, "AAA", 0, fuel)
  }

  /** From any point of the reference walk, the fuelled walk answers `s`
      exactly when `s` is the first arrival at `ZZZ` within the fuel. */
  lemma {:induction false} StepsFromArrives(instructions: string, network: Network, taken: nat, fuel: nat, s: nat)
    requires |instructions| > 0 && NodeAfter(instructions, network, taken).Ok?
    ensures StepsFrom(instructions, network, NodeAfter(instructions, network, taken).value, taken, fuel) == Ok(s)
            <==> FirstArrival(instructions, network, taken, s) && s <= taken + fuel
    decreases fuel
  {
    var node := NodeAfter(instructions, network, taken).value;
    var step := NodeAfter(instructions, network, taken + 1);
    assert step == Next(network, node, instructions[Position(|instructions|, taken)]);
    if fuel > 0 && step.Ok? && step.value != "ZZZ" {
      StepsFromArrives(instructions, network, taken + 1, fuel - 1, s);
      if FirstArrival(instructions, network, taken, s) {
        assert s != taken + 1;
        assert FirstArrival(instructions, network, taken + 1, s);
      }
      if FirstArrival(instructions, network, taken + 1, s) {
        assert FirstArrival(instructions, network, taken, s);
      }
    } else if FirstArrival(instructions, network, taken, s) && s > taken + 1 {
      assert NodeAfter(instructions, network, taken + 1).Ok?;
    }
  }

  /** The answer is `s` exactly when `s` moves take the walk from `AAA` to
      `ZZZ` for the first time (and `s` is within the fuel); it is at
      least 1. */
  lemma StepsToEndIsFirstArrival(instructions: string, network: Network, fuel: nat, s: nat)
    requires |instructions| > 0
    ensures StepsToEnd(instructions, network, fuel) == Ok(s) <==> FirstArrival(instructions, network, 0, s) && s <= fuel
  {
    StepsFromArrives(instructions, network, 0, fuel, s);
  }

  /** The walk, past `from` moves, reaches a node missing from the network at
      move `m` without having reached `ZZZ` before. */
  predicate MissAt(instructions: string, network: Network, from: nat, m: nat)
    requires |instructions| > 0
  {
    from < m && NodeAfter(instructions, network, m).Err? &&
    forall j :: from < j < m ==> NodeAfter(instructions, network, j) != Ok("ZZZ")
  }

  /** From any point of the reference walk, the fuelled walk raises KeyError
      exactly when the walk reaches a node missing from the network, within
      the fuel and before it reaches `ZZZ`. */
  lemma {:induction false} StepsFromMisses(instructions: string, network: Network, taken: nat, fuel: nat)
    requires |instructions| > 0 && NodeAfter(instructions, network, taken).Ok?
    ensures StepsFrom(instructions, network, NodeAfter(instructions, network, taken).value, taken, fuel) == Err(KeyError)
            <==> exists m: nat :: m <= taken + fuel && MissAt(instructions, network, taken, m)
    decreases fuel
  {
    var node := NodeAfter(instructions, network, taken).value;
    var step := NodeAfter(instructions, network, taken + 1);
    assert step == Next(network, node, instructions[Position(|instructions|, taken)]);
    if fuel > 0 && step.Ok? && step.value != "ZZZ" {
      StepsFromMisses(instructions, network, taken + 1, fuel - 1);
      if exists m: nat :: m <= taken + fuel && MissAt(instructions, network, taken, m) {
        var m: nat :| m <= taken + fuel && MissAt(instructions, network, taken, m);
        assert MissAt(instructions, network, taken + 1, m);
      }
      var later := taken + 1;
      if exists m: nat :: m <= taken + fuel && MissAt(instructions, network, later, m) {
        var m: nat :| m <= taken + fuel && MissAt(instructions, network, later, m);
        assert MissAt(instructions, network, taken, m);
      }
    } else if fuel > 0 && step.Err? {
      assert MissAt(instructions, network, taken, taken + 1);
    }
  }

  /** `get_steps_to_end` raises KeyError exactly when the walk from `AAA`
      reaches a node missing from the network before it reaches `ZZZ`. */
  lemma StepsToEndMissesNode(instructions: string, network: Network, fuel: nat)
    requires |instructions| > 0
    ensures StepsToEnd(instructions, network, fuel) == Err(KeyError) <==>
            exists m: nat :: m <= fuel && MissAt(instructions, network, 0, m)
  {
    StepsFromMisses(instructions, network, 0, fuel);
  }

  /** With no instructions the source's loop never ends. */
  lemma EmptyInstructionsNeverEnd(network: Network, fuel: nat)
    ensures StepsToEnd([], network, fuel) == Err(OutOfFuel)
  {
  }

  /** `get_steps_to_end` as the source runs it: the instructions again and
      again, one move each, counting from 1, until a move lands on `ZZZ`. */
  method GetStepsToEnd(instructions: string, network: Network, fuel: nat) returns (r: Result<nat>)
    ensures r == StepsToEnd(instructions, network, fuel)
  {
    var steps: nat := 1;
    var node := "AAA";
    var moves: nat := 0;
    while true
      invariant moves <= fuel && steps == moves + 1
      invariant |instructions| > 0 ==> Position(|instructions|, moves) == 0
      invariant StepsToEnd(instructions, network, fuel) == StepsFrom(instructions, network, node, moves, fuel - moves)
      decreases fuel - moves
    {
      if |instructions| == 0 {
        return Err(OutOfFuel);
      }
      var endFound := false;
      ghost var start := moves;
      for k := 0 to |instructions|
        invariant moves == start + k && moves <= fuel && steps == moves + 1
        invariant Position(|instructions|, moves) == if k == |instructions| then 0 else k
        invariant StepsToEnd(instructions, network, fuel) == StepsFrom(instructions, network, node, moves, fuel - moves)
      {
        if moves == fuel {
          return Err(OutOfFuel);
        }
        if node !in network {
          return Err(KeyError);
        }
        var (left, right) := network[node];
        node := if instructions[k] == 'R' then right else left;
        moves := moves + 1;
        if node == "ZZZ" {
          endFound := true;
          break;
        }
        steps := steps + 1;
      }
      if endFound {
        return Ok(steps);
      }
    }
  }

  /** The walks of the two test networks take 2 and 6 moves. */
  lemma StepsExamples()
    ensures StepsToEnd("RL", map["AAA" := ("BBB", "CCC"), "BBB" := ("DDD", "EEE"), "CCC" := ("ZZZ", "GGG"),
                                 "DDD" := ("DDD", "DDD"), "EEE" := ("EEE", "EEE"), "GGG" := ("GGG", "GGG"),
                                 "ZZZ" := ("ZZZ", "ZZZ")], 10) == Ok(2)
    ensures StepsToEnd("LLR", map["AAA" := ("BBB", "BBB"), "BBB" := ("AAA", "ZZZ"), "ZZZ" := ("ZZZ", "ZZZ")], 10) == Ok(6)
  {
  }

  /** Part one: the number of moves from `AAA` to `ZZZ`, within `fuel` moves. */
  function PartOne(input: string, fuel: nat): Result<nat>
  {
    match ParseInput(input) {
      case Err(e) => Err(e)
      case Ok((instructions, network)) => StepsToEnd(instructions, network, fuel)
    }
  }

  /** Part one answers `s` exactly when the input parses into instructions
      and a network whose walk from `AAA` first stands on `ZZZ` after `s`
      moves, within the fuel. */
  lemma PartOneIsFirstArrival(input: string, fuel: nat, s: nat)
    ensures PartOne(input, fuel) == Ok(s) <==>
      && ParseInput(input).Ok?
      && |ParseInput(input).value.0| > 0
      && FirstArrival(ParseInput(input).value.0, ParseInput(input).value.1, 0, s)
      && s <= fuel
  {
    if ParseInput(input).Ok? {
      var (instructions, network) := ParseInput(input).value;
      if |instructions| > 0 {
        StepsToEndIsFirstArrival(instructions, network, fuel, s);
      }
    }
  }
}
