/** Day 19: a machine that sends each part rating through named workflows of
    conditional jumps until one accepts or rejects it
    (adventofcode2023/days/day19.py). */
module Day19 {
  import opened Wrappers
  import Text
  import Sums

  /** A part rating: the four category values in the order of the tuple. */
  datatype Rating = Rating(x: int, m: int, a: int, s: int)

  /** A workflow: its instructions in order. */
  datatype Workflow = Workflow(ops: seq<string>)

  type WorkflowMap = map<string, Workflow>

  /** `State.START` and `State.PROCESS`. */
  datatype State = Start | Processing

  /** The three fields a handler changes while it processes a rating. */
  datatype Machine = Machine(state: State, workflow: Option<Workflow>, index: nat)

  /** The fields as `_init_attr` sets them. */
  const Initial := Machine(Start, None, 0)

  /** `sum(rating)`. */
  function Total(rating: Rating): int
  {
    rating.x + rating.m + rating.a + rating.s
  }

  // ---------------------------------------------------------------------------
  // One instruction

  /** `rating.__getattribute__(name)` for the four categories; any other
      name raises AttributeError. */
  function Category(rating: Rating, name: string): Result<int>
  {
    if name == "x" then Ok(rating.x)
    else if name == "m" then Ok(rating.m)
    else if name == "a" then Ok(rating.a)
    else if name == "s" then Ok(rating.s)
    else Err(AttributeError)
  }

  predicate IsAngle(c: char) { c == '<' || c == '>' }

  /** `re.split(r'<|>', s)`: the pieces between the angle brackets. */
  function SplitAtAngles(s: string): (parts: seq<string>)
    ensures |parts| >= 1
  {
    if s == [] then [""]
    else
      var rest := SplitAtAngles(s[1..]);
      if IsAngle(s[0]) then [""] + rest else [[s[0]] + rest[0]] + rest[1..]
  }

  /** What one instruction does to a rating: `Some(goto)` when it sends the
      rating on (an unconditional instruction always does), `None` when its
      condition fails.  An instruction with a `:` must split into exactly a
      condition and a target, and its condition into exactly a category and a
      number, or unpacking raises ValueError; the category is read before the
      number is converted.  The comparison is `<` when the condition holds a
      `<` and `>` otherwise. */
  function Rule(instruction: string, rating: Rating): (r: Result<Option<string>>)
    ensures !Text.Contains(instruction, ":") ==> r == Ok(Some(instruction))
    ensures r.Err? ==> Text.Contains(instruction, ":") && r.failure in {ValueError, AttributeError}
    ensures r.Ok? && r.value.Some? && Text.Contains(instruction, ":") ==>
      |Text.Split(instruction, ":")| == 2 && r.value.value == Text.Split(instruction, ":")[1]
    ensures r == Ok(None) ==> Text.Contains(instruction, ":")
  {
    if !Text.Contains(instruction, ":") then Ok(Some(instruction))
    else
      var halves := Text.Split(instruction, ":");
      if |halves| != 2 then Err(ValueError)
      else
        var sides := SplitAtAngles(halves[0]);
        if |sides| != 2 then Err(ValueError)
        else match Category(rating, sides[0]) {
          case Err(e) => Err(e)
          case Ok(v) =>
            match Text.ParseInt(sides[1]) {
              case None => Err(ValueError)
              case Some(n) =>
                var passed := if Text.Contains(halves[0], "<") then v < n else v > n;
                Ok(if passed then Some(halves[1]) else None)
            }
        }
  }

  // ---------------------------------------------------------------------------
  // The machine

  /** What one pass of the loop in `process` leads to. */
  datatype Outcome = Decided(accepted: bool) | Next(machine: Machine)

  /** Following a target: `R` rejects, `A` accepts, any other name starts
      that workflow at its first instruction (KeyError when there is none). */
  function Jump(workflows: WorkflowMap, goto: string): (r: Result<Outcome>)
    ensures r.Err? <==> goto !in {"R", "A"} && goto !in workflows
    ensures r.Err? ==> r.failure == KeyError
    ensures r.Ok? && r.value.Next? ==> goto in workflows && r.value.machine == Machine(Processing, Some(workflows[goto]), 0)
  {
    if goto == "R" then Ok(Decided(false))
    else if goto == "A" then Ok(Decided(true))
    else if goto in workflows then Ok(Next(Machine(Processing, Some(workflows[goto]), 0)))
    else Err(KeyError)
  }

  /** One pass of the loop: START enters workflow `in` (KeyError when it is
      missing) without touching the index; PROCESS runs the current
      instruction (IndexError past the last one), moving to the next one when
      its condition fails.  Every exception is raised before a field
      changes. */
  function Step(workflows: WorkflowMap, m: Machine, rating: Rating): (r: Result<Outcome>)
    ensures r.Err? ==> r.failure in {KeyError, AssertionError, IndexError, ValueError, AttributeError}
  {
    match m.state {
      case Start =>
        if "in" in workflows then Ok(Next(Machine(Processing, Some(workflows["in"]), m.index)))
        else Err(KeyError)
      case Processing =>
        if m.workflow.None? then Err(AssertionError)
        else if m.index >= |m.workflow.value.ops| then Err(IndexError)
        else match Rule(m.workflow.value.ops[m.index], rating) {
          case Err(e) => Err(e)
          case Ok(None) => Ok(Next(m.(index := m.index + 1)))
          case Ok(Some(goto)) => Jump(workflows, goto)
        }
    }
  }

  /** The verdict of a run and the fields where it stopped. */
  datatype Run = Run(verdict: Result<bool>, last: Machine)

  /** The loop of `process` run for at most `fuel` passes: the loop has no
      bound of its own, since workflows may send a rating round in a
      circle. */
  function Execute(workflows: WorkflowMap, m: Machine, rating: Rating, fuel: nat): (r: Run)
    ensures r.verdict.Err? ==> r.verdict.failure in {OutOfFuel, KeyError, AssertionError, IndexError, ValueError, AttributeError}
    decreases fuel
  {
    if fuel == 0 then Run(Err(OutOfFuel), m)
    else match Step(workflows, m, rating) {
      case Err(e) => Run(Err(e), m)
      case Ok(Decided(b)) => Run(Ok(b), m)
      case Ok(Next(n)) => Execute(workflows, n, rating, fuel - 1)
    }
  }

  /** A run stops where a pass of the loop decides or raises: a verdict is
      the decision of the pass from the fields the run ends with, and an
      exception other than running out of passes is the one that pass
      raises. */
  lemma {:induction false} ExecuteStops(workflows: WorkflowMap, m: Machine, rating: Rating, fuel: nat)
    ensures Execute(workflows, m, rating, fuel).verdict.Ok? ==>
      Step(workflows, Execute(workflows, m, rating, fuel).last, rating) == Ok(Decided(Execute(workflows, m, rating, fuel).verdict.value))
    ensures Execute(workflows, m, rating, fuel).verdict.Err? && Execute(workflows, m, rating, fuel).verdict.failure != OutOfFuel ==>
      Step(workflows, Execute(workflows, m, rating, fuel).last, rating) == Err(Execute(workflows, m, rating, fuel).verdict.failure)
    decreases fuel
  {
    if fuel > 0 {
      match Step(workflows, m, rating) {
        case Err(_) =>
        case Ok(Decided(_)) =>
        case Ok(Next(n)) => ExecuteStops(workflows, n, rating, fuel - 1);
      }
    }
  }

  /** What `process` answers for a rating on a handler in its initial state. */
  function Accepts(workflows: WorkflowMap, rating: Rating, fuel: nat): Result<bool>
  {
    Execute(workflows, Initial, rating, fuel).verdict
  }

  /** `WorkflowHandler`: the workflows and the three fields of the machine. */
  class WorkflowHandler {
    const workflows: WorkflowMap
    var workflow: Option<Workflow>
    var index: nat
    var state: State

    function Fields(): Machine
      reads this
    {
      Machine(state, workflow, index)
    }

    constructor(workflows: WorkflowMap)
      ensures this.workflows == workflows && Fields() == Initial
    {
      this.workflows := workflows;
      workflow := None;
      index := 0;
      state := Start;
    }

    /** `_reset`. */
    method Reset()
      modifies this
      ensures Fields() == Initial
    {
      workflow := None;
      index := 0;
      state := Start;
    }

    /** `process`: the loop runs from whatever the fields hold; a verdict
        resets them, so the next call starts afresh, while an exception
        leaves them where it was raised. */
    method Process(rating: Rating, fuel: nat) returns (accepted: Result<bool>)
      modifies this
      ensures accepted == Execute(workflows, old(Fields()), rating, fuel).verdict
      ensures Fields() == if accepted.Ok? then Initial else Execute(workflows, old(Fields()), rating, fuel).last
    {
      ghost var run := Execute(workflows, Fields(), rating, fuel);
      var steps := fuel;
      var verdict: Option<bool> := None;
      while verdict.None?
        invariant verdict.None? ==> Execute(workflows, Fields(), rating, steps) == run
        invariant verdict.Some? ==> run.verdict == Ok(verdict.value)
        decreases steps, if verdict.None? then 1 else 0
      {
        if steps == 0 {
          return Err(OutOfFuel);
        }
        match state {
          case Start =>
            if "in" !in workflows {
              return Err(KeyError);
            }
            workflow := Some(workflows["in"]);
            state := Processing;
          case Processing =>
            if workflow.None? {
              return Err(AssertionError);
            }
            var ops := workflow.value.ops;
            if index >= |ops| {
              return Err(IndexError);
            }
            var rule := Rule(ops[index], rating);
            if rule.Err? {
              return Err(rule.failure);
            }
            match rule.value {
              case None =>
                index := index + 1;
              case Some(goto) =>
                if goto == "R" {
                  verdict := Some(false);
                } else if goto == "A" {
                  verdict := Some(true);
                } else if goto in workflows {
                  workflow := Some(workflows[goto]);
                  index := 0;
                } else {
                  return Err(KeyError);
                }
            }
        }
        steps := steps - 1;
      }
      Reset();
      return Ok(verdict.value);
    }
  }

  /** The machine never fails its `assert` when PROCESS always comes with a
      workflow: START sets one, and every later pass keeps one. */
  lemma {:induction false} NeverAsserts(workflows: WorkflowMap, m: Machine, rating: Rating, fuel: nat)
    requires m.state == Processing ==> m.workflow.Some?
    ensures Execute(workflows, m, rating, fuel).verdict != Err(AssertionError)
    decreases fuel
  {
    if fuel > 0 {
      match Step(workflows, m, rating) {
        case Err(e) =>
        case Ok(Decided(b)) =>
        case Ok(Next(n)) =>
          NeverAsserts(workflows, n, rating, fuel - 1);
      }
    }
  }

  /** A handler in its initial state never fails its `assert`. */
  lemma InitialNeverAsserts(workflows: WorkflowMap, rating: Rating, fuel: nat)
    ensures Accepts(workflows, rating, fuel) != Err(AssertionError)
  {
    NeverAsserts(workflows, Initial, rating, fuel);
  }

  // ---------------------------------------------------------------------------
  // The rule-list reading of the workflows

  /** The first instruction from `i` on that sends the rating on, with its
      position: a failed condition passes to the next instruction, the first
      exception ends the search, and running off the end is IndexError. */
  function FirstPass(ops: seq<string>, i: nat, rating: Rating): Result<(nat, string)>
    decreases |ops| - i
  {
    if i >= |ops| then Err(IndexError)
    else match Rule(ops[i], rating) {
      case Err(e) => Err(e)
      case Ok(None) => FirstPass(ops, i + 1, rating)
      case Ok(Some(goto)) => Ok((i, goto))
    }
  }

  /** Workflows read as rule lists: the rating leaves the workflow `ops`
      (from instruction `i` on) by its first passing rule, and is accepted,
      rejected or handed on to the named workflow; at most `hops` hand-overs
      are followed. */
  function Follow(workflows: WorkflowMap, ops: seq<string>, i: nat, rating: Rating, hops: nat): Result<bool>
    decreases hops
  {
    match FirstPass(ops, i, rating) {
      case Err(e) => Err(e)
      case Ok((_, goto)) =>
        if goto == "R" then Ok(false)
        else if goto == "A" then Ok(true)
        else if goto !in workflows then Err(KeyError)
        else if hops == 0 then Err(OutOfFuel)
        else Follow(workflows, workflows[goto].ops, 0, rating, hops - 1)
    }
  }

  /** A rating's verdict by the rule lists, starting with workflow `in`. */
  function Decide(workflows: WorkflowMap, rating: Rating, hops: nat): Result<bool>
  {
    if "in" !in workflows then Err(KeyError)
    else Follow(workflows, workflows["in"].ops, 0, rating, hops)
  }

  /** Inside a workflow the machine reaches the verdict of the rule lists
      whenever it finishes within its passes. */
  lemma {:induction false} ExecuteFollows(workflows: WorkflowMap, w: Workflow, i: nat, rating: Rating, fuel: nat, hops: nat)
    requires Execute(workflows, Machine(Processing, Some(w), i), rating, fuel).verdict != Err(OutOfFuel)
    requires fuel <= hops
    ensures Execute(workflows, Machine(Processing, Some(w), i), rating, fuel).verdict == Follow(workflows, w.ops, i, rating, hops)
    decreases fuel
  {
    var m := Machine(Processing, Some(w), i);
    if fuel > 0 && i < |w.ops| {
      match Rule(w.ops[i], rating) {
        case Err(e) =>
        case Ok(None) =>
          assert Step(workflows, m, rating) == Ok(Next(Machine(Processing, Some(w), i + 1)));
          ExecuteFollows(workflows, w, i + 1, rating, fuel - 1, hops);
        case Ok(Some(goto)) =>
          if goto != "R" && goto != "A" && goto in workflows {
            ExecuteFollows(workflows, workflows[goto], 0, rating, fuel - 1, hops - 1);
          }
      }
    }
  }

  /** Whenever the rule lists reach a verdict, so does the machine inside the
      workflow, given enough passes. */
  lemma {:induction false} FollowExecutes(workflows: WorkflowMap, w: Workflow, i: nat, rating: Rating, hops: nat)
    requires Follow(workflows, w.ops, i, rating, hops) != Err(OutOfFuel)
    ensures exists fuel: nat :: Execute(workflows, Machine(Processing, Some(w), i), rating, fuel).verdict == Follow(workflows, w.ops, i, rating, hops)
    decreases hops, |w.ops| - i
  {
    var m := Machine(Processing, Some(w), i);
    var v := Follow(workflows, w.ops, i, rating, hops);
    if i >= |w.ops| {
      assert Execute(workflows, m, rating, 1).verdict == v;
    } else {
      match Rule(w.ops[i], rating) {
        case Err(e) =>
          assert Execute(workflows, m, rating, 1).verdict == v;
        case Ok(None) =>
          FollowExecutes(workflows, w, i + 1, rating, hops);
          var fuel: nat :| Execute(workflows, Machine(Processing, Some(w), i + 1), rating, fuel).verdict == v;
          assert Execute(workflows, m, rating, fuel + 1).verdict == v;
        case Ok(Some(goto)) =>
          if goto == "R" || goto == "A" || goto !in workflows {
            assert Execute(workflows, m, rating, 1).verdict == v;
          } else {
            var next := workflows[goto];
            FollowExecutes(workflows, next, 0, rating, hops - 1);
            var fuel: nat :| Execute(workflows, Machine(Processing, Some(next), 0), rating, fuel).verdict == v;
            assert Execute(workflows, m, rating, fuel + 1).verdict == v;
          }
      }
    }
  }

  /** `process` and the rule lists agree: a verdict of the machine within
      `fuel` passes is the verdict of the rule lists within `fuel` hand-overs,
      and every verdict of the rule lists is reached by the machine within
      some number of passes. */
  lemma AcceptsIsDecide(workflows: WorkflowMap, rating: Rating, fuel: nat, hops: nat)
    ensures Accepts(workflows, rating, fuel) != Err(OutOfFuel) ==> Accepts(workflows, rating, fuel) == Decide(workflows, rating, fuel)
    ensures Decide(workflows, rating, hops) != Err(OutOfFuel) ==>
      exists passes: nat :: Accepts(workflows, rating, passes) == Decide(workflows, rating, hops)
  {
    if Accepts(workflows, rating, fuel) != Err(OutOfFuel) && "in" in workflows {
      ExecuteFollows(workflows, workflows["in"], 0, rating, fuel - 1, fuel);
    }
    var v := Decide(workflows, rating, hops);
    if v != Err(OutOfFuel) {
      if "in" in workflows {
        FollowExecutes(workflows, workflows["in"], 0, rating, hops);
        var passes: nat :| Execute(workflows, Machine(Processing, Some(workflows["in"]), 0), rating, passes).verdict == v;
        assert Accepts(workflows, rating, passes + 1) == v;
      } else {
        assert Accepts(workflows, rating, 1) == v;
      }
    }
  }

  // ---------------------------------------------------------------------------
  // The instruction format

  /** The conditional instruction `name<n:goto` or `name>n:goto`. */
  function Conditional(name: string, op: char, n: nat, goto: string): string
  {
    name + [op] + Text.NatToString(n) + ":" + goto
  }

  predicate Lacks(s: string, c: char)
  {
    forall j :: 0 <= j < |s| ==> s[j] != c
  }

  predicate IsCategory(name: string)
  {
    name == "x" || name == "m" || name == "a" || name == "s"
  }

  /** `c in s` for a single character. */
  lemma ContainsChar(s: string, c: char)
    ensures Text.Contains(s, [c]) <==> !Lacks(s, c)
  {
    if !Lacks(s, c) {
      var j :| 0 <= j < |s| && s[j] == c;
      assert Text.OccursAt(s, [c], j);
    }
    if Text.Contains(s, [c]) {
      var i: nat :| i <= |s| && Text.OccursAt(s, [c], i);
      assert s[i..i + 1][0] == s[i];
    }
  }

  /** A string without angle brackets is a single piece. */
  lemma {:induction false} SplitAtAnglesNone(s: string)
    requires forall j :: 0 <= j < |s| ==> !IsAngle(s[j])
    ensures SplitAtAngles(s) == [s]
  {
    if s != [] {
      SplitAtAnglesNone(s[1..]);
      assert [s[0]] + s[1..] == s;
    }
  }

  /** A string with one angle bracket splits into the two sides of it. */
  lemma {:induction false} SplitAtAnglesOne(head: string, c: char, tail: string)
    requires IsAngle(c)
    requires forall j :: 0 <= j < |head| ==> !IsAngle(head[j])
    requires forall j :: 0 <= j < |tail| ==> !IsAngle(tail[j])
    ensures SplitAtAngles(head + [c] + tail) == [head, tail]
  {
    var s := head + [c] + tail;
    if head == [] {
      assert s[1..] == tail;
      SplitAtAnglesNone(tail);
    } else {
      assert s[1..] == head[1..] + [c] + tail;
      SplitAtAnglesOne(head[1..], c, tail);
      assert [head[0]] + head[1..] == head;
    }
  }

  /** `name<n:goto` sends the rating to `goto` exactly when its `name` value is
      below `n`, and `name>n:goto` exactly when it is above `n`. */
  lemma ConditionalPasses(name: string, op: char, n: nat, goto: string, rating: Rating)
    requires IsCategory(name) && IsAngle(op) && Lacks(goto, ':')
    ensures Rule(Conditional(name, op, n, goto), rating) ==
      Ok(if (if op == '<' then Category(rating, name).value < n else Category(rating, name).value > n)
         then Some(goto) else None)
  {
    var digits := Text.NatToString(n);
    var condition := name + [op] + digits;
    ConditionalParts(name, op, n, goto);
    assert SplitAtAngles(condition) == [name, digits] by {
      assert forall j :: 0 <= j < |digits| ==> !IsAngle(digits[j]) by {
        assert Text.AllDigits(digits);
      }
      SplitAtAnglesOne(name, op, digits);
    }
    Text.ParseIntNatToString(n);
    assert Text.Contains(condition, "<") <==> op == '<' by {
      assert Lacks(digits, '<') by {
        assert Text.AllDigits(digits);
      }
      ContainsChar(condition, '<');
      assert condition[|name|] == op;
    }
  }

  /** A conditional instruction holds a `:` and splits at it into the
      condition and the target. */
  lemma ConditionalParts(name: string, op: char, n: nat, goto: string)
    requires IsCategory(name) && IsAngle(op) && Lacks(goto, ':')
    ensures Text.Contains(Conditional(name, op, n, goto), ":")
    ensures Text.Split(Conditional(name, op, n, goto), ":") == [name + [op] + Text.NatToString(n), goto]
  {
    var digits := Text.NatToString(n);
    var condition := name + [op] + digits;
    var instruction := Conditional(name, op, n, goto);
    assert instruction == condition + [':'] + goto;
    assert Lacks(digits, ':') by {
      assert Text.AllDigits(digits);
    }
    ContainsChar(instruction, ':');
    assert instruction[|condition|] == ':';
    Text.SplitAtOnlyChar(condition, goto, ':');
  }

  /** An instruction without `:` always sends the rating to the workflow it
      names. */
  lemma UnconditionalPasses(goto: string, rating: Rating)
    requires Lacks(goto, ':')
    ensures Rule(goto, rating) == Ok(Some(goto))
  {
    ContainsChar(goto, ':');
  }

  // ---------------------------------------------------------------------------
  // Reading the workflows

  /** One line `key{op,op,...}`: the key is the text before the first `{`
      and the instructions are the text between it and the last character,
      split at `,`.  Without a `{` the index is -1, so the key is the line
      without its last character and the instructions are read from the same
      text. */
  function ParseWorkflowLine(line: string): (string, Workflow)
  {
    var idx := Text.FindChar(line, '{');
    (Text.Slice(line, 0, idx), Workflow(Text.Split(Text.Slice(line, idx + 1, -1), ",")))
  }

  /** The dictionary the parsing loop builds: a later line for the same key
      replaces an earlier one. */
  function WorkflowsOf(defs: seq<(string, Workflow)>): WorkflowMap
  {
    if defs == [] then map[]
    else WorkflowsOf(defs[..|defs| - 1])[defs[|defs| - 1].0 := defs[|defs| - 1].1]
  }

  /** `parse_workflows`. */
  function ParseWorkflows(w: string): (r: WorkflowMap)
    ensures forall key :: key in r <==>
      exists i :: 0 <= i < |Text.Split(w, "\n")| && ParseWorkflowLine(Text.Split(w, "\n")[i]).0 == key
  {
    var lines := Text.Split(w, "\n");
    var defs := Sums.Map(ParseWorkflowLine, lines);
    assert forall i :: 0 <= i < |lines| ==> defs[i] == ParseWorkflowLine(lines[i]) by {
      forall i | 0 <= i < |lines| ensures defs[i] == ParseWorkflowLine(lines[i]) {
        Sums.MapAt(ParseWorkflowLine, lines, i);
      }
    }
    assert forall key :: key in WorkflowsOf(defs) <==> exists i :: 0 <= i < |defs| && defs[i].0 == key by {
      forall key ensures key in WorkflowsOf(defs) <==> exists i :: 0 <= i < |defs| && defs[i].0 == key {
        WorkflowsOfLookup(defs, key);
      }
    }
    WorkflowsOf(defs)
  }

  /** `parse_workflows` as the source runs it: one assignment per line. */
  method ReadWorkflows(w: string) returns (workflows: WorkflowMap)
    ensures workflows == ParseWorkflows(w)
  {
    var lines := Text.Split(w, "\n");
    workflows := map[];
    ghost var defs: seq<(string, Workflow)> := [];
    for k := 0 to |lines|
      invariant defs == Sums.Map(ParseWorkflowLine, lines[..k])
      invariant workflows == WorkflowsOf(defs)
    {
      var def := ParseWorkflowLine(lines[k]);
      workflows := workflows[def.0 := def.1];
      MapSnoc(ParseWorkflowLine, lines, k);
      assert (defs + [def])[..|defs|] == defs;
      defs := defs + [def];
    }
    assert lines[..|lines|] == lines;
  }

  /** Mapping a prefix one line longer adds that line's value at the end. */
  lemma MapSnoc<A, B>(f: A -> B, xs: seq<A>, k: nat)
    requires k < |xs|
    ensures Sums.Map(f, xs[..k + 1]) == Sums.Map(f, xs[..k]) + [f(xs[k])]
  {
    var left := Sums.Map(f, xs[..k + 1]);
    var right := Sums.Map(f, xs[..k]) + [f(xs[k])];
    forall j | 0 <= j < k + 1
      ensures left[j] == right[j]
    {
      Sums.MapAt(f, xs[..k + 1], j);
      if j < k {
        Sums.MapAt(f, xs[..k], j);
      }
    }
  }

  /** A key is in the dictionary exactly when some line names it, and then
      it holds the workflow of the last such line. */
  lemma {:induction false} WorkflowsOfLookup(defs: seq<(string, Workflow)>, key: string)
    ensures key in WorkflowsOf(defs) <==> exists i :: 0 <= i < |defs| && defs[i].0 == key
    ensures forall i :: (0 <= i < |defs| && defs[i].0 == key &&
                         forall j :: i < j < |defs| ==> defs[j].0 != key) ==> WorkflowsOf(defs)[key] == defs[i].1
  {
    if defs != [] {
      var init := defs[..|defs| - 1];
      var last := defs[|defs| - 1];
      WorkflowsOfLookup(init, key);
      assert WorkflowsOf(defs) == WorkflowsOf(init)[last.0 := last.1];
      assert forall i :: 0 <= i < |init| ==> init[i] == defs[i];
      if last.0 != key {
        assert key in WorkflowsOf(defs) <==> key in WorkflowsOf(init);
      }
    }
  }

  /** The line of a workflow. */
  function WorkflowLine(name: string, w: Workflow): string
    requires |w.ops| >= 1
  {
    name + "{" + Text.Join(w.ops, ",") + "}"
  }

  /** A workflow line reads back as its name and instructions, when the name
      has no `{` and no instruction has a `,`. */
  lemma ParseWorkflowLineOf(name: string, w: Workflow)
    requires |w.ops| >= 1 && Lacks(name, '{')
    requires forall k, j :: 0 <= k < |w.ops| && 0 <= j < |w.ops[k]| ==> w.ops[k][j] != ','
    ensures ParseWorkflowLine(WorkflowLine(name, w)) == (name, w)
  {
    var body := Text.Join(w.ops, ",");
    var line := WorkflowLine(name, w);
    assert line == name + ['{'] + (body + "}");
    assert line[|name|] == '{' && forall j :: 0 <= j < |name| ==> line[j] == name[j];
    assert Text.FindChar(line, '{') == |name|;
    assert line[..|name|] == name;
    assert line[|name| + 1..|line| - 1] == body;
    Text.SplitOfJoin(w.ops, ',');
  }

  // ---------------------------------------------------------------------------
  // Reading the ratings

  /** One component `c=n`: the number after the first `=` (the whole text
      when there is none), ValueError when it is not an integer. */
  function ComponentValue(component: string): (r: Result<int>)
    ensures r.Err? ==> r.failure == ValueError
  {
    match Text.ParseInt(Text.Slice(component, Text.FindChar(component, '=') + 1, |component|)) {
      case None => Err(ValueError)
      case Some(n) => Ok(n)
    }
  }

  /** One line `{x=..,m=..,a=..,s=..}`: the text without its first and last
      character, split at `,`; every component is converted first, and then
      building the tuple from anything but four values raises TypeError. */
  function ParseRating(line: string): (r: Result<Rating>)
    ensures r.Err? ==> r.failure in {ValueError, TypeError}
  {
    match Sums.Collect(ComponentValue, Text.Split(Text.Slice(line, 1, -1), ",")) {
      case Err(e) => Err(e)
      case Ok(vs) => if |vs| != 4 then Err(TypeError) else Ok(Rating(vs[0], vs[1], vs[2], vs[3]))
    }
  }

  /** `parse_ratings`: the first line that fails ends the parse. */
  function ParseRatings(r: string): (rs: Result<seq<Rating>>)
    ensures rs.Ok? ==> |rs.value| == |Text.Split(r, "\n")|
    ensures rs.Ok? ==> forall i :: 0 <= i < |rs.value| ==> ParseRating(Text.Split(r, "\n")[i]) == Ok(rs.value[i])
    ensures rs.Err? ==> rs.failure in {ValueError, TypeError}
  {
    Sums.Collect(ParseRating, Text.Split(r, "\n"))
  }

  /** `parse_ratings` as the source runs it: one append per line. */
  method ReadRatings(r: string) returns (ratings: Result<seq<Rating>>)
    ensures ratings == ParseRatings(r)
  {
    ratings := Sums.CollectEach(ParseRating, Text.Split(r, "\n"));
  }

  /** `c=n`. */
  function Component(c: char, n: nat): string
  {
    [c] + "=" + Text.NatToString(n)
  }

  /** A rating with no negative value. */
  predicate Natural(rating: Rating)
  {
    rating.x >= 0 && rating.m >= 0 && rating.a >= 0 && rating.s >= 0
  }

  /** The four components of a rating, in order. */
  function Components(rating: Rating): seq<string>
    requires Natural(rating)
  {
    [Component('x', rating.x), Component('m', rating.m), Component('a', rating.a), Component('s', rating.s)]
  }

  /** The line of a rating. */
  function RatingLine(rating: Rating): string
    requires Natural(rating)
  {
    "{" + Text.Join(Components(rating), ",") + "}"
  }

  /** A component reads back as its number. */
  lemma ComponentValueOf(c: char, n: nat)
    requires c != '='
    ensures ComponentValue(Component(c, n)) == Ok(n)
  {
    var t := Component(c, n);
    assert t[0] == c && t[1] == '=';
    assert Text.FindChar(t, '=') == 1;
    assert t[2..|t|] == Text.NatToString(n);
    Text.ParseIntNatToString(n);
  }

  /** No component contains a `,` or a line break. */
  lemma ComponentLacks(c: char, n: nat, d: char)
    requires d != c && d != '=' && !Text.IsDigit(d)
    ensures Lacks(Component(c, n), d)
  {
    assert Text.AllDigits(Text.NatToString(n));
  }

  /** The line of a rating reads back as the rating, its values in the order
      `x`, `m`, `a`, `s`. */
  lemma ParseRatingLine(rating: Rating)
    requires Natural(rating)
    ensures ParseRating(RatingLine(rating)) == Ok(rating)
  {
    var parts := Components(rating);
    var line := RatingLine(rating);
    assert Text.Slice(line, 1, -1) == Text.Join(parts, ",");
    ComponentsSplit(rating);
    ComponentsValues(rating);
  }

  /** The lines of some ratings, one per rating. */
  function RatingLines(rs: seq<Rating>): (ls: seq<string>)
    requires forall i :: 0 <= i < |rs| ==> Natural(rs[i])
    ensures |ls| == |rs| && forall i :: 0 <= i < |rs| ==> ls[i] == RatingLine(rs[i])
  {
    seq(|rs|, i requires 0 <= i < |rs| => RatingLine(rs[i]))
  }

  /** No rating line holds a line break. */
  lemma RatingLineLacksBreak(rating: Rating)
    requires Natural(rating)
    ensures '\n' !in RatingLine(rating)
  {
    var parts := Components(rating);
    forall k | 0 <= k < |parts| ensures '\n' !in parts[k] {
      ComponentLacks(['x', 'm', 'a', 's'][k], [rating.x, rating.m, rating.a, rating.s][k], '\n');
    }
    Text.JoinLacks(parts, ",", '\n');
  }

  /** The ratings written one per line read back as the same ratings, in
      order. */
  lemma ParseRatingsOfLines(rs: seq<Rating>)
    requires |rs| >= 1 && forall i :: 0 <= i < |rs| ==> Natural(rs[i])
    ensures ParseRatings(Text.Join(RatingLines(rs), "\n")) == Ok(rs)
  {
    var ls := RatingLines(rs);
    forall k | 0 <= k < |ls|
      ensures ParseRating(ls[k]) == Ok(rs[k]) && '\n' !in ls[k]
    {
      ParseRatingLine(rs[k]);
      RatingLineLacksBreak(rs[k]);
    }
    Text.SplitOfJoin(ls, '\n');
    Sums.CollectAllOk(ParseRating, ls, rs);
  }

  /** The components of a rating line split apart at the commas. */
  lemma ComponentsSplit(rating: Rating)
    requires Natural(rating)
    ensures Text.Split(Text.Join(Components(rating), ","), ",") == Components(rating)
  {
    ComponentLacks('x', rating.x, ',');
    ComponentLacks('m', rating.m, ',');
    ComponentLacks('a', rating.a, ',');
    ComponentLacks('s', rating.s, ',');
    Text.SplitOfJoin(Components(rating), ',');
  }

  /** The components of a rating read back as its four values. */
  lemma ComponentsValues(rating: Rating)
    requires Natural(rating)
    ensures Sums.Collect(ComponentValue, Components(rating)) == Ok([rating.x, rating.m, rating.a, rating.s])
  {
    var parts := Components(rating);
    var values := [rating.x, rating.m, rating.a, rating.s];
    forall i | 0 <= i < 4
      ensures ComponentValue(parts[i]) == Ok(values[i])
    {
      if i == 0 {
        ComponentValueOf('x', rating.x);
      } else if i == 1 {
        ComponentValueOf('m', rating.m);
      } else if i == 2 {
        ComponentValueOf('a', rating.a);
      } else {
        ComponentValueOf('s', rating.s);
      }
    }
    Sums.CollectAllOk(ComponentValue, parts, values);
  }

  // ---------------------------------------------------------------------------
  // Part one

  /** What each rating adds to the answer: its `x+m+a+s` when `process`
      accepts it, nothing when it rejects it. */
  function Score(workflows: WorkflowMap, rating: Rating, fuel: nat): Result<int>
  {
    match Accepts(workflows, rating, fuel) {
      case Err(e) => Err(e)
      case Ok(accepted) => Ok(if accepted then Total(rating) else 0)
    }
  }

  function Scores(workflows: WorkflowMap, ratings: seq<Rating>, fuel: nat): (r: seq<Result<int>>)
    ensures |r| == |ratings| && forall k :: 0 <= k < |ratings| ==> r[k] == Score(workflows, ratings[k], fuel)
  {
    seq(|ratings|, k requires 0 <= k < |ratings| => Score(workflows, ratings[k], fuel))
  }

  /** `solve_part_one`: the input splits at the blank line into exactly two
      parts (ValueError otherwise), each is stripped and parsed, and one
      handler scores the ratings in order, at most `fuel` passes each. */
  function PartOne(input: string, fuel: nat): Result<int>
  {
    var parts := Text.Split(input, "\n\n");
    if |parts| != 2 then Err(ValueError)
    else
      var workflows := ParseWorkflows(Text.Strip(parts[0]));
      match ParseRatings(Text.Strip(parts[1])) {
        case Err(e) => Err(e)
        case Ok(ratings) => Sums.Total(Scores(workflows, ratings, fuel))
      }
  }

  /** `solve_part_one` as the source runs it, with one handler for all the
      ratings. */
  method SolvePartOne(input: string, fuel: nat) returns (r: Result<int>)
    ensures r == PartOne(input, fuel)
  {
    var parts := Text.Split(input, "\n\n");
    if |parts| != 2 {
      return Err(ValueError);
    }
    var workflows := ReadWorkflows(Text.Strip(parts[0]));
    var ratings := ReadRatings(Text.Strip(parts[1]));
    if ratings.Err? {
      return Err(ratings.failure);
    }
    var handler := new WorkflowHandler(workflows);
    r := ScoreRatings(handler, ratings.value, fuel);
  }

  /** The generator of `solve_part_one`: `process` on each rating in turn,
      adding `x+m+a+s` for the accepted ones; the first exception ends the
      sum.  Each verdict resets the handler, so every rating starts from the
      initial state. */
  method ScoreRatings(handler: WorkflowHandler, ratings: seq<Rating>, fuel: nat) returns (r: Result<int>)
    requires handler.Fields() == Initial
    modifies handler
    ensures r == Sums.Total(Scores(handler.workflows, ratings, fuel))
  {
    ghost var scores := Scores(handler.workflows, ratings, fuel);
    var total := 0;
    for k := 0 to |ratings|
      invariant handler.Fields() == Initial
      invariant Sums.Total(scores) == Sums.AddTo(total, Sums.Total(scores[k..]))
    {
      var rating := ratings[k];
      var accepted := handler.Process(rating, fuel);
      assert accepted == Accepts(handler.workflows, rating, fuel);
      assert scores[k] == Score(handler.workflows, rating, fuel);
      Sums.TotalStep(scores, k, total, scores[k]);
      if accepted.Err? {
        return Err(accepted.failure);
      }
      if accepted.value {
        total := total + Total(rating);
      }
    }
    Sums.TotalDone(scores, total);
    return Ok(total);
  }

  /** The summed `x+m+a+s` of the ratings the rule lists accept. */
  function AcceptedTotal(workflows: WorkflowMap, ratings: seq<Rating>, hops: nat): int
  {
    if ratings == [] then 0
    else (if Decide(workflows, ratings[0], hops) == Ok(true) then Total(ratings[0]) else 0)
         + AcceptedTotal(workflows, ratings[1..], hops)
  }

  /** When `process` reaches a verdict for every rating, the answer is the
      summed `x+m+a+s` of exactly the ratings the rule lists accept. */
  lemma {:induction false} PartOneSumsAccepted(workflows: WorkflowMap, ratings: seq<Rating>, fuel: nat)
    requires forall k :: 0 <= k < |ratings| ==> Accepts(workflows, ratings[k], fuel).Ok?
    ensures Sums.Total(Scores(workflows, ratings, fuel)) == Ok(AcceptedTotal(workflows, ratings, fuel))
  {
    var scores := Scores(workflows, ratings, fuel);
    if ratings != [] {
      AcceptsIsDecide(workflows, ratings[0], fuel, fuel);
      var rest := ratings[1..];
      assert forall k :: 0 <= k < |rest| ==> rest[k] == ratings[k + 1];
      PartOneSumsAccepted(workflows, rest, fuel);
      assert scores[1..] == Scores(workflows, rest, fuel);
    }
  }
}
