/** Day 20: a network of flip-flop, conjunction and broadcaster modules that
    pass high and low pulses to each other through a FIFO queue, while a
    manager counts the pulses sent (adventofcode2023/days/day20.py). */
module Day20 {
  import opened Wrappers
  import Text
  import Sums

  /** `PulseType`. */
  datatype Level = High | Low

  datatype Pulse = Pulse(level: Level, sender: string, receiver: string)

  /** `Pulse.__eq__`: two pulses are equal when their type and receiver
      are; the sender plays no part. */
  predicate SamePulse(a: Pulse, b: Pulse)
  {
    a.level == b.level && a.receiver == b.receiver
  }

  /** Equal pulses are the same pulse up to the sender, and the relation is
      an equivalence. */
  lemma SamePulseUpToSender(a: Pulse, b: Pulse, c: Pulse)
    ensures SamePulse(a, b) <==> a.(sender := b.sender) == b
    ensures SamePulse(a, a)
    ensures SamePulse(a, b) ==> SamePulse(b, a)
    ensures SamePulse(a, b) && SamePulse(b, c) ==> SamePulse(a, c)
  {
  }

  // ---------------------------------------------------------------------------
  // One module

  /** What a module remembers: a flip-flop whether it is on, a conjunction
      the last level it received from each input, a broadcaster nothing. */
  datatype State = FlipFlop(on: bool) | Conjunction(memory: map<string, Level>) | Broadcaster

  /** A module's key, input keys, destination keys and state. */
  datatype Node = Node(key: string, inputs: seq<string>, dests: seq<string>, state: State)

  /** One pulse of the given level from `key` to each destination, in order. */
  function Send(key: string, dests: seq<string>, level: Level): (out: seq<Pulse>)
    ensures |out| == |dests|
    ensures forall i :: 0 <= i < |dests| ==> out[i] == Pulse(level, key, dests[i])
  {
    seq(|dests|, i requires 0 <= i < |dests| => Pulse(level, key, dests[i]))
  }

  predicate AllHigh(memory: map<string, Level>)
  {
    forall k :: k in memory ==> memory[k] == High
  }

  /** `pulse` of the three module classes: the module's new value and the
      pulses it sends. */
  function Respond(n: Node, p: Pulse): (r: (Node, seq<Pulse>))
    ensures r.0.key == n.key && r.0.inputs == n.inputs && r.0.dests == n.dests
    ensures |r.1| == if n.state.FlipFlop? && p.level == High then 0 else |n.dests|
  {
    match n.state {
      case FlipFlop(on) =>
        if p.level == High then (n, [])
        else (n.(state := FlipFlop(!on)), Send(n.key, n.dests, if on then Low else High))
      case Conjunction(memory) =>
        var remembered := memory[p.sender := p.level];
        (n.(state := Conjunction(remembered)), Send(n.key, n.dests, if AllHigh(remembered) then Low else High))
      case Broadcaster =>
        (n, Send(n.key, n.dests, p.level))
    }
  }

  /** A module keeps its key, inputs, destinations and kind. */
  lemma RespondKeeps(n: Node, p: Pulse)
    ensures Respond(n, p).0.key == n.key && Respond(n, p).0.inputs == n.inputs && Respond(n, p).0.dests == n.dests
    ensures Respond(n, p).0.state.FlipFlop? == n.state.FlipFlop?
    ensures Respond(n, p).0.state.Conjunction? == n.state.Conjunction?
    ensures Respond(n, p).0.state.Broadcaster? == n.state.Broadcaster?
  {
  }

  /** A flip-flop ignores a high pulse: nothing changes and nothing is
      sent. */
  lemma FlipFlopIgnoresHigh(n: Node, p: Pulse)
    requires n.state.FlipFlop? && p.level == High
    ensures Respond(n, p) == (n, [])
  {
  }

  /** On a low pulse a flip-flop toggles, and sends to each destination in
      order a pulse that is high exactly when it is now on. */
  lemma FlipFlopToggles(n: Node, p: Pulse)
    requires n.state.FlipFlop? && p.level == Low
    ensures Respond(n, p).0.state == FlipFlop(!n.state.on)
    ensures |Respond(n, p).1| == |n.dests|
    ensures forall i :: 0 <= i < |n.dests| ==>
      Respond(n, p).1[i].sender == n.key && Respond(n, p).1[i].receiver == n.dests[i] &&
      (Respond(n, p).1[i].level == High <==> Respond(n, p).0.state.on)
  {
  }

  /** Two low pulses bring a flip-flop back to where it was. */
  lemma FlipFlopTwiceRestores(n: Node, p: Pulse, q: Pulse)
    requires n.state.FlipFlop? && p.level == Low && q.level == Low
    ensures Respond(Respond(n, p).0, q).0 == n
  {
  }

  /** A conjunction first remembers the sender's level, then sends a low
      pulse to each destination when every remembered level is high and a
      high pulse otherwise. */
  lemma ConjunctionRemembers(n: Node, p: Pulse)
    requires n.state.Conjunction?
    ensures Respond(n, p).0.state.Conjunction?
    ensures Respond(n, p).0.state.memory == n.state.memory[p.sender := p.level]
    ensures |Respond(n, p).1| == |n.dests|
    ensures forall i :: 0 <= i < |n.dests| ==>
      Respond(n, p).1[i].sender == n.key && Respond(n, p).1[i].receiver == n.dests[i] &&
      (Respond(n, p).1[i].level == Low <==>
        p.level == High && forall k :: k in n.state.memory && k != p.sender ==> n.state.memory[k] == High)
  {
    var remembered := n.state.memory[p.sender := p.level];
    if forall k :: k in n.state.memory && k != p.sender ==> n.state.memory[k] == High {
      if p.level == High {
        assert AllHigh(remembered);
      } else {
        assert remembered[p.sender] == Low;
      }
    } else {
      var k :| k in n.state.memory && k != p.sender && n.state.memory[k] != High;
      assert remembered[k] == Low;
    }
  }

  /** The broadcaster sends the level it received to each destination, in
      order, and does not change. */
  lemma BroadcasterForwards(n: Node, p: Pulse)
    requires n.state.Broadcaster?
    ensures Respond(n, p).0 == n
    ensures |Respond(n, p).1| == |n.dests|
    ensures forall i :: 0 <= i < |n.dests| ==>
      Respond(n, p).1[i] == Pulse(p.level, n.key, n.dests[i])
  {
  }

  // ---------------------------------------------------------------------------
  // Registering inputs

  /** The key and destinations of another module, all that registering
      looks at. */
  datatype Link = Link(key: string, dests: seq<string>)

  /** A module learns that `from` sends to it: `from` joins its inputs and,
      for a conjunction, is remembered as having sent a low pulse. */
  function Listen(n: Node, from: string): Node
  {
    n.(inputs := n.inputs + [from],
       state := if n.state.Conjunction? then Conjunction(n.state.memory[from := Low]) else n.state)
  }

  /** `register_inputmodules` over the given modules, in order. */
  function Registered(n: Node, links: seq<Link>): Node
    decreases |links|
  {
    if |links| == 0 then n
    else
      var last := links[|links| - 1];
      var m := Registered(n, links[..|links| - 1]);
      if n.key in last.dests then Listen(m, last.key) else m
  }

  /** The keys of the given modules that send to `key`, in order. */
  function Sources(key: string, links: seq<Link>): (r: seq<string>)
    ensures forall s :: s in r <==> exists i :: 0 <= i < |links| && links[i].key == s && key in links[i].dests
    decreases |links|
  {
    if |links| == 0 then []
    else
      var last := links[|links| - 1];
      var before := Sources(key, links[..|links| - 1]);
      assert forall i :: 0 <= i < |links| - 1 ==> links[..|links| - 1][i] == links[i];
      if key in last.dests then before + [last.key] else before
  }

  /** Registering appends the senders, in order, to the inputs; a
      conjunction additionally remembers each sender as low, and no other
      module changes state. */
  lemma {:induction false} RegisteredInputs(n: Node, links: seq<Link>)
    ensures Registered(n, links).key == n.key && Registered(n, links).dests == n.dests
    ensures Registered(n, links).inputs == n.inputs + Sources(n.key, links)
    ensures !n.state.Conjunction? ==> Registered(n, links).state == n.state
    ensures n.state.Conjunction? ==> (Registered(n, links).state.Conjunction? &&
      Registered(n, links).state.memory.Keys == n.state.memory.Keys + (set s | s in Sources(n.key, links)) &&
      forall k :: k in Registered(n, links).state.memory ==>
        Registered(n, links).state.memory[k] == if k in Sources(n.key, links) then Low else n.state.memory[k])
    decreases |links|
  {
    if |links| > 0 {
      RegisteredInputs(n, links[..|links| - 1]);
    }
  }

  // ---------------------------------------------------------------------------
  // Modules as objects

  /** A module object: `FlipFlop`, `Conjunction` or `Broadcaster`, told
      apart by its state.  The key and destinations never change; the inputs
      grow while registering and the state changes with each pulse. */
  class Module {
    const key: string
    const dests: seq<string>
    var inputs: seq<string>
    var state: State

    function Value(): Node
      reads this
    {
      Node(key, inputs, dests, state)
    }

    /** A module with no inputs yet. */
    constructor(key: string, dests: seq<string>, state: State)
      ensures Value() == Node(key, [], dests, state)
    {
      this.key := key;
      this.dests := dests;
      inputs := [];
      this.state := state;
    }

    /** `register_inputmodules`: each given module that lists this one as a
        destination is added to the inputs (and, for a conjunction, to the
        memory as low). */
    method RegisterInputs(others: seq<Module>)
      modifies this
      ensures Value() == Registered(old(Value()), LinksOf(others))
    {
      for i := 0 to |others|
        invariant Value() == Registered(old(Value()), LinksOf(others[..i]))
      {
        assert LinksOf(others[..i + 1]) == LinksOf(others[..i]) + [Link(others[i].key, others[i].dests)];
        if key in others[i].dests {
          inputs := inputs + [others[i].key];
          if state.Conjunction? {
            state := Conjunction(state.memory[others[i].key := Low]);
          }
        }
      }
      assert others[..|others|] == others;
    }

    /** `pulse`: the module reacts to one pulse. */
    method Receive(p: Pulse) returns (out: seq<Pulse>)
      modifies this
      ensures (Value(), out) == Respond(old(Value()), p)
    {
      match state {
        case FlipFlop(on) =>
          if p.level == High {
            return [];
          }
          state := FlipFlop(!on);
          out := Send(key, dests, if on then Low else High);
        case Conjunction(memory) =>
          state := Conjunction(memory[p.sender := p.level]);
          out := Send(key, dests, if AllHigh(state.memory) then Low else High);
        case Broadcaster =>
          out := Send(key, dests, p.level);
      }
    }
  }

  /** The key and destinations of each module, in order. */
  function LinksOf(modules: seq<Module>): (r: seq<Link>)
    ensures |r| == |modules| && forall i :: 0 <= i < |modules| ==> r[i] == Link(modules[i].key, modules[i].dests)
  {
    seq(|modules|, i requires 0 <= i < |modules| => Link(modules[i].key, modules[i].dests))
  }

  // ---------------------------------------------------------------------------
  // The pulse queue

  /** The manager's state: the modules by key and its four counters. */
  datatype Network = Network(nodes: map<string, Node>, low: nat, high: nat, presses: nat, found: bool)

  /** How the queue loop of one press ended: the queue ran empty, the pulse
      looked for came off the queue, or the step bound ran out. */
  datatype Status = Emptied | Matched | OutOfSteps

  /** The state after the queue loop, how it ended, and the pulses it
      counted, in the order it took them off the queue. */
  datatype Outcome = Outcome(net: Network, status: Status, trace: seq<Pulse>)

  /** `look_for_pulse is not None and pulse == look_for_pulse`. */
  predicate Looked(look: Option<Pulse>, p: Pulse)
  {
    look.Some? && SamePulse(p, look.value)
  }

  /** One more pulse of `p`'s level counted. */
  function Counted(net: Network, p: Pulse): Network
  {
    if p.level == Low then net.(low := net.low + 1) else net.(high := net.high + 1)
  }

  /** The module with the receiver's key, if there is one, reacts to the
      pulse; the pulses it sends.  A pulse to any other key sends nothing. */
  function Deliver(net: Network, p: Pulse): (Network, seq<Pulse>)
  {
    if p.receiver in net.nodes then
      var r := Respond(net.nodes[p.receiver], p);
      (net.(nodes := net.nodes[p.receiver := r.0]), r.1)
    else (net, [])
  }

  /** The queue loop of `press_button`, taking at most `fuel` pulses off the
      queue: a pulse equal to the one looked for sets `found` and stops the
      loop uncounted; any other pulse is counted, delivered, and the pulses
      it causes join the back of the queue. */
  function Drain(net: Network, queue: seq<Pulse>, look: Option<Pulse>, fuel: nat): (r: Outcome)
    ensures |r.trace| <= fuel
    ensures r.status == OutOfSteps ==> |r.trace| == fuel
    ensures r.status == Emptied && queue != [] ==> |r.trace| > 0
    decreases fuel
  {
    if |queue| == 0 then Outcome(net, Emptied, [])
    else if fuel == 0 then Outcome(net, OutOfSteps, [])
    else if Looked(look, queue[0]) then Outcome(net.(found := true), Matched, [])
    else
      var d := Deliver(Counted(net, queue[0]), queue[0]);
      var rest := Drain(d.0, queue[1..] + d.1, look, fuel - 1);
      rest.(trace := [queue[0]] + rest.trace)
  }

  /** The pulse the button sends. */
  const ButtonPulse := Pulse(Low, "button", "broadcaster")

  /** `press_button`: one more press, and the queue loop from the button's
      low pulse to the broadcaster. */
  function Press(net: Network, look: Option<Pulse>, fuel: nat): (r: Outcome)
    ensures |r.trace| <= fuel
    ensures r.status == OutOfSteps ==> |r.trace| == fuel
    ensures r.status == Emptied ==> |r.trace| > 0
  {
    Drain(net.(presses := net.presses + 1), [ButtonPulse], look, fuel)
  }

  /** The number of pulses of one level. */
  function Tally(trace: seq<Pulse>, level: Level): nat
  {
    if |trace| == 0 then 0 else (if trace[0].level == level then 1 else 0) + Tally(trace[1..], level)
  }

  lemma {:induction false} TallyAppend(a: seq<Pulse>, b: seq<Pulse>, level: Level)
    ensures Tally(a + b, level) == Tally(a, level) + Tally(b, level)
    decreases |a|
  {
    if |a| > 0 {
      TallyAppend(a[1..], b, level);
      assert (a + b)[1..] == a[1..] + b;
    } else {
      assert a + b == b;
    }
  }

  /** What the queue loop promises about its outcome `r`, started from
      `net`: each counted pulse adds one to exactly the counter of its level,
      no counted pulse is the one looked for, `found` is set exactly when
      the loop stops at it, and the modules keep their keys. */
  ghost predicate Accounted(net: Network, look: Option<Pulse>, r: Outcome)
  {
    && r.net.low == net.low + Tally(r.trace, Low)
    && r.net.high == net.high + Tally(r.trace, High)
    && r.net.presses == net.presses
    && r.net.nodes.Keys == net.nodes.Keys
    && r.net.found == (net.found || r.status == Matched)
    && (forall i :: 0 <= i < |r.trace| ==> !Looked(look, r.trace[i]))
  }

  /** One turn of the queue loop: the head is counted and delivered and
      the loop goes on with the rest of the queue and what the head caused. */
  lemma DrainStep(net: Network, queue: seq<Pulse>, look: Option<Pulse>, fuel: nat)
    requires |queue| > 0 && fuel > 0 && !Looked(look, queue[0])
    ensures var d := Deliver(Counted(net, queue[0]), queue[0]);
      && Drain(net, queue, look, fuel).net == Drain(d.0, queue[1..] + d.1, look, fuel - 1).net
      && Drain(net, queue, look, fuel).status == Drain(d.0, queue[1..] + d.1, look, fuel - 1).status
      && Drain(net, queue, look, fuel).trace == [queue[0]] + Drain(d.0, queue[1..] + d.1, look, fuel - 1).trace
  {
  }

  /** Delivering a pulse changes only the modules, and keeps their keys. */
  lemma DeliverKeeps(net: Network, p: Pulse)
    ensures Deliver(net, p).0.(nodes := net.nodes) == net
    ensures Deliver(net, p).0.nodes.Keys == net.nodes.Keys
  {
  }

  /** Counting one pulse in front of a run that keeps its promises keeps them. */
  lemma AccountedStep(net: Network, p: Pulse, next: Network, look: Option<Pulse>, rest: Outcome)
    requires !Looked(look, p)
    requires next.(nodes := net.nodes) == Counted(net, p)
    requires next.nodes.Keys == net.nodes.Keys
    requires Accounted(next, look, rest)
    ensures Accounted(net, look, rest.(trace := [p] + rest.trace))
  {
    TallyAppend([p], rest.trace, Low);
    TallyAppend([p], rest.trace, High);
    assert ([p] + rest.trace)[0] == p;
    assert forall i :: 1 <= i < |[p] + rest.trace| ==> ([p] + rest.trace)[i] == rest.trace[i - 1];
  }

  lemma {:induction false} DrainCounts(net: Network, queue: seq<Pulse>, look: Option<Pulse>, fuel: nat)
    ensures Accounted(net, look, Drain(net, queue, look, fuel))
    decreases fuel
  {
    if |queue| > 0 && fuel > 0 && !Looked(look, queue[0]) {
      var p := queue[0];
      var d := Deliver(Counted(net, p), p);
      DeliverKeeps(Counted(net, p), p);
      DrainCounts(d.0, queue[1..] + d.1, look, fuel - 1);
      DrainStep(net, queue, look, fuel);
      AccountedStep(net, p, d.0, look, Drain(d.0, queue[1..] + d.1, look, fuel - 1));
    }
  }

  /** First in, first out: the pulses already queued are taken off before
      any pulse they cause. */
  lemma {:induction false} DrainFifo(net: Network, queue: seq<Pulse>, look: Option<Pulse>, fuel: nat)
    ensures forall i :: 0 <= i < |queue| && i < |Drain(net, queue, look, fuel).trace| ==>
      Drain(net, queue, look, fuel).trace[i] == queue[i]
    decreases fuel
  {
    if |queue| > 0 && fuel > 0 && !Looked(look, queue[0]) {
      var d := Deliver(Counted(net, queue[0]), queue[0]);
      var next := queue[1..] + d.1;
      DrainFifo(d.0, next, look, fuel - 1);
      forall i | 1 <= i < |queue| && i < |Drain(net, queue, look, fuel).trace|
        ensures Drain(net, queue, look, fuel).trace[i] == queue[i]
      {
        assert next[i - 1] == queue[i];
      }
    }
  }

  /** A pulse to a key no module has is counted and causes nothing. */
  lemma UnknownReceiver(net: Network, p: Pulse)
    requires p.receiver !in net.nodes
    ensures Deliver(Counted(net, p), p) == (Counted(net, p), [])
    ensures Counted(net, p).nodes == net.nodes
    ensures Counted(net, p).low + Counted(net, p).high == net.low + net.high + 1
  {
  }

  /** A press adds exactly one to the presses, and unless the button's pulse
      is itself the one looked for (or there is no step to take) it is the
      first pulse counted. */
  lemma PressCounts(net: Network, look: Option<Pulse>, fuel: nat)
    ensures Press(net, look, fuel).net.presses == net.presses + 1
    ensures fuel > 0 && !Looked(look, ButtonPulse) ==>
      |Press(net, look, fuel).trace| > 0 && Press(net, look, fuel).trace[0] == ButtonPulse
  {
    DrainCounts(net.(presses := net.presses + 1), [ButtonPulse], look, fuel);
    assert Accounted(net.(presses := net.presses + 1), look, Press(net, look, fuel));
    DrainFifo(net.(presses := net.presses + 1), [ButtonPulse], look, fuel);
  }

  /** `n` presses in a row, stopping early only when a press runs out of
      steps; the pulses counted by all of them, in order. */
  function Presses(net: Network, n: nat, look: Option<Pulse>, fuel: nat): Outcome
  {
    if n == 0 then Outcome(net, Emptied, [])
    else
      var before := Presses(net, n - 1, look, fuel);
      if before.status == OutOfSteps then before
      else
        var last := Press(before.net, look, fuel);
        Outcome(last.net, last.status, before.trace + last.trace)
  }

  /** Over several presses too, the low and high counters grow by the
      number of low and high pulses counted, and, when no press ran out of
      steps, the presses by `n`. */
  lemma {:induction false} PressesCounts(net: Network, n: nat, look: Option<Pulse>, fuel: nat)
    ensures Presses(net, n, look, fuel).net.low == net.low + Tally(Presses(net, n, look, fuel).trace, Low)
    ensures Presses(net, n, look, fuel).net.high == net.high + Tally(Presses(net, n, look, fuel).trace, High)
    ensures Presses(net, n, look, fuel).status != OutOfSteps ==> Presses(net, n, look, fuel).net.presses == net.presses + n
    ensures net.found ==> Presses(net, n, look, fuel).net.found
  {
    if n > 0 {
      PressesCounts(net, n - 1, look, fuel);
      var before := Presses(net, n - 1, look, fuel);
      if before.status != OutOfSteps {
        DrainCounts(before.net.(presses := before.net.presses + 1), [ButtonPulse], look, fuel);
        var last := Press(before.net, look, fuel);
        assert Accounted(before.net.(presses := before.net.presses + 1), look, last);
        TallyAppend(before.trace, last.trace, Low);
        TallyAppend(before.trace, last.trace, High);
      }
    }
  }

  // ---------------------------------------------------------------------------
  // Reading the configuration

  /** `str.startswith`. */
  predicate StartsWith(s: string, prefix: string)
  {
    |prefix| <= |s| && s[..|prefix|] == prefix
  }

  /** The module classes registered with the manager, tried in the order
      they were registered: the initial state of the module a line with
      that prefix describes. */
  function Kind(line: string): (r: Option<State>)
    ensures r.Some? <==> StartsWith(line, "%") || StartsWith(line, "&") || StartsWith(line, "broadcaster")
    ensures StartsWith(line, "%") ==> r == Some(FlipFlop(false))
    ensures StartsWith(line, "&") ==> r == Some(Conjunction(map[]))
    ensures StartsWith(line, "broadcaster") ==> r == Some(Broadcaster)
  {
    if StartsWith(line, "%") then Some(FlipFlop(false))
    else if StartsWith(line, "&") then Some(Conjunction(map[]))
    else if StartsWith(line, "broadcaster") then Some(Broadcaster)
    else None
  }

  /** One line of the configuration: the dictionary key and the module it
      describes, nothing for a line with no registered prefix, or a
      ValueError when the line does not hold exactly one `->`. */
  function ParseLine(line: string): (r: Result<Option<(string, Node)>>)
    ensures Kind(line).None? ==> r == Ok(None)
    ensures r.Err? <==> Kind(line).Some? && |Text.Split(line, "->")| != 2
    ensures r.Err? ==> r.failure == ValueError
  {
    match Kind(line)
    case None => Ok(None)
    case Some(state) =>
      var parts := Text.Split(line, "->");
      if |parts| != 2 then Err(ValueError)
      else
        var name := Text.Strip(parts[0]);
        var key := if state.Broadcaster? then name else Text.Slice(name, 1, |name|);
        var dests := Sums.Map(Text.Strip, Text.Split(parts[1], ","));
        var node := Node(if state.Broadcaster? then "broadcaster" else key, [], dests, state);
        Ok(Some((key, node)))
  }

  /** A line without a registered prefix is skipped, and every module a
      line describes starts with no inputs, switched off or with nothing
      remembered. */
  lemma ParseLineFresh(line: string)
    ensures Kind(line).None? ==> ParseLine(line) == Ok(None)
    ensures ParseLine(line).Ok? && ParseLine(line).value.Some? ==>
      var n := ParseLine(line).value.value.1;
      && n.inputs == []
      && Some(n.state) == Kind(line)
      && (n.state.Broadcaster? <==> n.key == "broadcaster" && StartsWith(line, "broadcaster"))
  {
  }

  /** A module or destination name as the configuration writes it: not
      empty, and without whitespace, `-` or `,`. */
  predicate Name(w: string) {
    |w| > 0 && forall j :: 0 <= j < |w| ==> !Text.IsSpace(w[j]) && w[j] != '-' && w[j] != ','
  }

  /** The line `<head> -> <d1>, <d2>, ...`. */
  function ConfigLine(head: string, ds: seq<string>): string
    requires |ds| >= 1
  {
    (head + " ") + "->" + (" " + Text.Join(ds, ", "))
  }

  /** Each destination after a single space. */
  function Spaced(ds: seq<string>): (r: seq<string>)
    ensures |r| == |ds| && forall i :: 0 <= i < |ds| ==> r[i] == " " + ds[i]
  {
    if ds == [] then [] else [" " + ds[0]] + Spaced(ds[1..])
  }

  /** Joining with `, ` after a space is joining the spaced names with `,`. */
  lemma {:induction false} JoinSpaced(ds: seq<string>)
    requires |ds| >= 1
    ensures " " + Text.Join(ds, ", ") == Text.Join(Spaced(ds), ",")
  {
    if |ds| > 1 {
      JoinSpaced(ds[1..]);
      assert Spaced(ds)[1..] == Spaced(ds[1..]);
      assert " " + Text.Join(ds, ", ") == (" " + ds[0]) + "," + (" " + Text.Join(ds[1..], ", "));
    }
  }

  /** The spaced destinations hold no `-` and no `,`. */
  lemma SpacedLacks(ds: seq<string>)
    requires forall i :: 0 <= i < |ds| ==> Name(ds[i])
    ensures forall k :: 0 <= k < |ds| ==> '-' !in Spaced(ds)[k] && ',' !in Spaced(ds)[k]
  {
    var sp := Spaced(ds);
    forall k | 0 <= k < |sp| ensures '-' !in sp[k] && ',' !in sp[k] {
      assert forall j :: 0 <= j < |ds[k]| ==> ds[k][j] != '-' && ds[k][j] != ',';
    }
  }

  /** Stripping each spaced destination gives the destination back. */
  lemma StripSpaced(ds: seq<string>)
    requires forall i :: 0 <= i < |ds| ==> Name(ds[i])
    ensures Sums.Map(Text.Strip, Spaced(ds)) == ds
  {
    var r := Sums.Map(Text.Strip, Spaced(ds));
    forall k | 0 <= k < |ds| ensures r[k] == ds[k] {
      Sums.MapAt(Text.Strip, Spaced(ds), k);
      Text.StripLeadingSpace(ds[k]);
    }
  }

  /** The part after `->` reads back as the destinations. */
  lemma DestsOfLine(ds: seq<string>)
    requires |ds| >= 1 && forall i :: 0 <= i < |ds| ==> Name(ds[i])
    ensures '-' !in " " + Text.Join(ds, ", ")
    ensures Sums.Map(Text.Strip, Text.Split(" " + Text.Join(ds, ", "), ",")) == ds
  {
    JoinSpaced(ds);
    SpacedLacks(ds);
    Text.JoinLacks(Spaced(ds), ",", '-');
    Text.SplitOfJoin(Spaced(ds), ',');
    StripSpaced(ds);
  }

  /** A configuration line splits at its one `->`. */
  lemma ConfigLineSplits(head: string, ds: seq<string>)
    requires '-' !in head
    requires |ds| >= 1 && forall i :: 0 <= i < |ds| ==> Name(ds[i])
    ensures Text.Split(ConfigLine(head, ds), "->") == [head + " ", " " + Text.Join(ds, ", ")]
  {
    DestsOfLine(ds);
    Text.SplitAtOnlySep(head + " ", " " + Text.Join(ds, ", "), "->");
  }

  /** `ParseLine` is its steps put together. */
  lemma ParseLineSteps(line: string, state: State, name: string, ds: seq<string>, key: string)
    requires |ds| >= 1 && forall i :: 0 <= i < |ds| ==> Name(ds[i])
    requires Kind(line) == Some(state)
    requires Text.Split(line, "->") == [name + " ", " " + Text.Join(ds, ", ")]
    requires Text.Strip(name + " ") == name
    requires key == if state.Broadcaster? then name else Text.Slice(name, 1, |name|)
    ensures ParseLine(line) == Ok(Some((key, Node(if state.Broadcaster? then "broadcaster" else key, [], ds, state))))
  {
    DestsOfLine(ds);
  }

  /** A `%` or `&` line reads back as the module it names: stored under the
      name without its prefix, with no inputs, the destinations listed, and
      a flip-flop switched off or a conjunction remembering nothing. */
  lemma ParseLineOfModule(p: string, k: string, ds: seq<string>)
    requires p == "%" || p == "&"
    requires Name(k) && |ds| >= 1 && forall i :: 0 <= i < |ds| ==> Name(ds[i])
    ensures ParseLine(ConfigLine(p + k, ds)) ==
      Ok(Some((k, Node(k, [], ds, if p == "%" then FlipFlop(false) else Conjunction(map[])))))
  {
    var line := ConfigLine(p + k, ds);
    ModuleHead(p, k);
    ConfigLineSplits(p + k, ds);
    KindOfModuleLine(p, k, ds);
    ParseLineSteps(line, if p == "%" then FlipFlop(false) else Conjunction(map[]), p + k, ds, k);
  }

  /** The part before `->` of a `%` or `&` line. */
  lemma ModuleHead(p: string, k: string)
    requires |p| == 1 && !Text.IsSpace(p[0]) && p[0] != '-' && Name(k)
    ensures '-' !in p + k
    ensures Text.Strip(p + k + " ") == p + k
    ensures Text.Slice(p + k, 1, |p + k|) == k
  {
    assert forall j :: 0 <= j < |k| ==> k[j] != '-';
    Text.StripTrailingSpace(p + k);
    assert (p + k)[1..] == k;
  }

  /** A `%` or `&` line has the state of its prefix. */
  lemma KindOfModuleLine(p: string, k: string, ds: seq<string>)
    requires p == "%" || p == "&"
    requires |ds| >= 1
    ensures Kind(ConfigLine(p + k, ds)) == Some(if p == "%" then FlipFlop(false) else Conjunction(map[]))
  {
    assert ConfigLine(p + k, ds)[..1] == p;
  }

  /** The broadcaster's line reads back as the broadcaster with no inputs and
      the destinations listed. */
  lemma ParseLineOfBroadcaster(ds: seq<string>)
    requires |ds| >= 1 && forall i :: 0 <= i < |ds| ==> Name(ds[i])
    ensures ParseLine(ConfigLine("broadcaster", ds)) ==
      Ok(Some(("broadcaster", Node("broadcaster", [], ds, Broadcaster))))
  {
    var line := ConfigLine("broadcaster", ds);
    ConfigLineSplits("broadcaster", ds);
    Text.StripTrailingSpace("broadcaster");
    assert line[..11] == "broadcaster";
    ParseLineSteps(line, Broadcaster, "broadcaster", ds, "broadcaster");
  }

  /** A dictionary: its keys in insertion order and its entries. */
  datatype Table = Table(keys: seq<string>, nodes: map<string, Node>)

  /** Each key listed once, and exactly the keys with an entry. */
  ghost predicate Ordered(t: Table)
  {
    && (forall i, j :: 0 <= i < j < |t.keys| ==> t.keys[i] != t.keys[j])
    && (forall k :: k in t.nodes <==> k in t.keys)
  }

  /** `modules[key] = module`: a new key goes to the end, an old key keeps
      its place and gets the new entry. */
  function Put(t: Table, key: string, n: Node): (r: Table)
    requires Ordered(t)
    ensures Ordered(r)
    ensures r.nodes == t.nodes[key := n]
    ensures key in t.nodes ==> r.keys == t.keys
    ensures key !in t.nodes ==> r.keys == t.keys + [key]
  {
    if key in t.nodes then Table(t.keys, t.nodes[key := n]) else Table(t.keys + [key], t.nodes[key := n])
  }

  /** The dictionary the lines describe, or the error of the first line
      that fails. */
  function Read(lines: seq<string>): (r: Result<Table>)
    ensures r.Ok? ==> Ordered(r.value)
  {
    if |lines| == 0 then Ok(Table([], map[]))
    else
      match Read(lines[..|lines| - 1])
      case Err(e) => Err(e)
      case Ok(t) =>
        match ParseLine(lines[|lines| - 1])
        case Err(e) => Err(e)
        case Ok(None) => Ok(t)
        case Ok(Some(entry)) => Ok(Put(t, entry.0, entry.1))
  }

  /** Reading more lines only appends keys: the keys read from the first
      `k` lines come first, in the same order. */
  lemma {:induction false} ReadKeepsOrder(lines: seq<string>, k: nat)
    requires k <= |lines| && Read(lines).Ok?
    ensures Read(lines[..k]).Ok?
    ensures Read(lines[..k]).value.keys <= Read(lines).value.keys
    decreases |lines|
  {
    if k < |lines| {
      var init := lines[..|lines| - 1];
      assert init[..k] == lines[..k];
      ReadKeepsOrder(init, k);
    } else {
      assert lines[..k] == lines;
    }
  }

  /** Once a line fails, the lines after it change nothing. */
  lemma {:induction false} ReadKeepsError(lines: seq<string>, i: nat, j: nat)
    requires i <= j <= |lines|
    requires Read(lines[..i]).Err?
    ensures Read(lines[..j]) == Read(lines[..i])
    decreases j
  {
    if j > i {
      ReadKeepsError(lines, i, j - 1);
      assert lines[..j][..j - 1] == lines[..j - 1];
    }
  }

  /** The links of the entries under every key but `except`, in the
      dictionary's order. */
  function Links(keys: seq<string>, nodes: map<string, Node>, except: string): (r: seq<Link>)
    requires forall k :: k in keys ==> k in nodes
    ensures forall l :: l in r <==>
      exists i :: 0 <= i < |keys| && keys[i] != except && l == Link(nodes[keys[i]].key, nodes[keys[i]].dests)
  {
    if |keys| == 0 then []
    else
      var k := keys[|keys| - 1];
      var rest := Links(keys[..|keys| - 1], nodes, except);
      var r := if k != except then rest + [Link(nodes[k].key, nodes[k].dests)] else rest;
      assert forall i :: 0 <= i < |keys| - 1 ==> keys[..|keys| - 1][i] == keys[i];
      r
  }

  /** `from_module_configuration` as a value: every module of the
      dictionary registers as its inputs the modules under the other keys
      that list it as a destination. */
  function Configure(input: string): Result<map<string, Node>>
  {
    match Read(Text.Split(input, "\n"))
    case Err(e) => Err(e)
    case Ok(t) => Ok(Configured(t))
  }

  /** Every entry registered against the entries under the other keys. */
  function Configured(t: Table): map<string, Node>
    requires Ordered(t)
  {
    map k | k in t.nodes :: Registered(t.nodes[k], Links(t.keys, t.nodes, t.nodes[k].key))
  }

  /** Each sender registered from a dictionary's links is the key of a
      module under another dictionary key that lists the receiver. */
  lemma LinkedFromOther(t: Table, target: string, except: string, s: string)
    requires Ordered(t)
    requires s in Sources(target, Links(t.keys, t.nodes, except))
    ensures exists k' :: k' in t.nodes && k' != except && t.nodes[k'].key == s && target in t.nodes[k'].dests
  {
    var links := Links(t.keys, t.nodes, except);
    var i :| 0 <= i < |links| && links[i].key == s && target in links[i].dests;
    assert links[i] in links;
    var j :| 0 <= j < |t.keys| && t.keys[j] != except && links[i] == Link(t.nodes[t.keys[j]].key, t.nodes[t.keys[j]].dests);
    assert t.keys[j] in t.nodes;
  }

  /** Every module under another dictionary key that lists the receiver is
      registered as a sender. */
  lemma OtherLinked(t: Table, target: string, except: string, k': string)
    requires Ordered(t)
    requires k' in t.nodes && k' != except && target in t.nodes[k'].dests
    ensures t.nodes[k'].key in Sources(target, Links(t.keys, t.nodes, except))
  {
    var links := Links(t.keys, t.nodes, except);
    var j :| 0 <= j < |t.keys| && t.keys[j] == k';
    var l := Link(t.nodes[k'].key, t.nodes[k'].dests);
    assert l in links;
    var i :| 0 <= i < |links| && links[i] == l;
  }

  /** The senders registered from a dictionary's links are the keys of
      exactly the modules under other dictionary keys that list the
      receiver as a destination. */
  lemma LinkedFrom(t: Table, target: string, except: string, s: string)
    requires Ordered(t)
    ensures s in Sources(target, Links(t.keys, t.nodes, except)) <==>
      exists k' :: k' in t.nodes && k' != except && t.nodes[k'].key == s && target in t.nodes[k'].dests
  {
    if s in Sources(target, Links(t.keys, t.nodes, except)) {
      LinkedFromOther(t, target, except, s);
    }
    if exists k' :: k' in t.nodes && k' != except && t.nodes[k'].key == s && target in t.nodes[k'].dests {
      var k' :| k' in t.nodes && k' != except && t.nodes[k'].key == s && target in t.nodes[k'].dests;
      OtherLinked(t, target, except, k');
    }
  }

  /** After configuration a module's inputs are the keys of exactly the
      modules under other dictionary keys that list it as a destination;
      the rest of every module other than a conjunction is as its line
      described it. */
  lemma ConfigureRegisters(input: string, t: Table, k: string, s: string)
    requires Read(Text.Split(input, "\n")) == Ok(t)
    requires k in t.nodes
    ensures Configure(input).Ok? && k in Configure(input).value
    ensures var n := Configure(input).value[k];
      && n.key == t.nodes[k].key && n.dests == t.nodes[k].dests
      && (s in n.inputs <==> (s in t.nodes[k].inputs ||
            exists k' :: k' in t.nodes && k' != n.key && t.nodes[k'].key == s && n.key in t.nodes[k'].dests))
      && (!n.state.Conjunction? ==> n.state == t.nodes[k].state)
  {
    RegisteredInputs(t.nodes[k], Links(t.keys, t.nodes, t.nodes[k].key));
    LinkedFrom(t, t.nodes[k].key, t.nodes[k].key, s);
  }

  /** A conjunction read from a line starts out remembering a low pulse
      from exactly its inputs. */
  lemma ConfigureConjunction(input: string, t: Table, k: string)
    requires Read(Text.Split(input, "\n")) == Ok(t)
    requires k in t.nodes && t.nodes[k].state == Conjunction(map[]) && t.nodes[k].inputs == []
    ensures Configure(input).Ok? && k in Configure(input).value
    ensures var n := Configure(input).value[k];
      && n.state.Conjunction?
      && (forall s :: s in n.state.memory <==> s in n.inputs)
      && (forall s :: s in n.state.memory ==> n.state.memory[s] == Low)
  {
    var links := Links(t.keys, t.nodes, t.nodes[k].key);
    RegisteredInputs(t.nodes[k], links);
  }

  /** No module object sits under two keys. */
  ghost predicate Separate(modules: map<string, Module>)
  {
    forall k, k' :: k in modules && k' in modules && k != k' ==> modules[k] != modules[k']
  }

  /** The modules' values by key. */
  ghost function NodesOf(modules: map<string, Module>): map<string, Node>
    reads modules.Values
  {
    map k | k in modules :: modules[k].Value()
  }

  /** `[m for (k, m) in modules.items() if k != except]`. */
  function Others(keys: seq<string>, modules: map<string, Module>, except: string): (r: seq<Module>)
    requires forall k :: k in keys ==> k in modules
    ensures forall m :: m in r ==> m in modules.Values
  {
    if |keys| == 0 then []
    else
      var k := keys[|keys| - 1];
      var rest := Others(keys[..|keys| - 1], modules, except);
      if k != except then rest + [modules[k]] else rest
  }

  /** The modules under the other keys have the links of the table's
      entries under those keys. */
  lemma {:induction false} OthersLinks(keys: seq<string>, modules: map<string, Module>, nodes: map<string, Node>, except: string)
    requires forall k :: k in keys ==> k in modules && k in nodes
    requires forall k :: k in keys ==> modules[k].key == nodes[k].key && modules[k].dests == nodes[k].dests
    ensures LinksOf(Others(keys, modules, except)) == Links(keys, nodes, except)
    decreases |keys|
  {
    if |keys| > 0 {
      OthersLinks(keys[..|keys| - 1], modules, nodes, except);
    }
  }

  /** The loop over the lines: a fresh module object for each line that
      describes one, under its dictionary key. */
  method ReadModules(lines: seq<string>) returns (failure: Option<Failure>, keys: seq<string>, modules: map<string, Module>)
    ensures failure.Some? ==> Read(lines) == Err(failure.value)
    ensures failure.None? ==> Read(lines) == Ok(Table(keys, NodesOf(modules)))
    ensures Separate(modules) && fresh(modules.Values)
  {
    keys := [];
    modules := map[];
    for i := 0 to |lines|
      invariant Read(lines[..i]) == Ok(Table(keys, NodesOf(modules)))
      invariant Separate(modules) && fresh(modules.Values)
    {
      var entry := ParseLine(lines[i]);
      assert lines[..i + 1][..i] == lines[..i];
      if entry.Err? {
        ReadKeepsError(lines, i + 1, |lines|);
        assert lines[..|lines|] == lines;
        return Some(entry.failure), keys, modules;
      }
      if entry.value.Some? {
        ParseLineFresh(lines[i]);
        keys, modules := Enter(keys, modules, entry.value.value.0, entry.value.value.1);
      }
    }
    assert lines[..|lines|] == lines;
    return None, keys, modules;
  }

  /** `modules[key] = module(key, [], destmodules)`. */
  method Enter(keys: seq<string>, modules: map<string, Module>, key: string, node: Node)
    returns (keys': seq<string>, modules': map<string, Module>)
    requires Ordered(Table(keys, NodesOf(modules))) && Separate(modules)
    requires node.inputs == []
    ensures Table(keys', NodesOf(modules')) == Put(Table(keys, NodesOf(modules)), key, node)
    ensures Separate(modules')
    ensures forall m :: m in modules'.Values ==> m in modules.Values || fresh(m)
  {
    var m := new Module(node.key, node.dests, node.state);
    keys' := if key !in modules then keys + [key] else keys;
    modules' := modules[key := m];
    assert NodesOf(modules') == NodesOf(modules)[key := node];
  }

  /** The modules' values once those under the keys in `done` have
      registered their inputs. */
  ghost function Partly(t: Table, done: seq<string>): map<string, Node>
    requires Ordered(t)
  {
    map k | k in t.nodes :: if k in done then Registered(t.nodes[k], Links(t.keys, t.nodes, t.nodes[k].key)) else t.nodes[k]
  }

  /** One more module registered. */
  lemma PartlyStep(t: Table, done: seq<string>, key: string)
    requires Ordered(t) && key in t.nodes && key !in done
    ensures Partly(t, done + [key]) == Partly(t, done)[key := Registered(t.nodes[key], Links(t.keys, t.nodes, t.nodes[key].key))]
  {
  }

  /** One module registers its inputs; the others keep their values. */
  method RegisterOne(modules: map<string, Module>, key: string, others: seq<Module>)
    requires key in modules && Separate(modules)
    modifies modules[key]
    ensures NodesOf(modules) == old(NodesOf(modules))[key := Registered(old(modules[key].Value()), LinksOf(others))]
  {
    var m := modules[key];
    ghost var before := NodesOf(modules);
    m.RegisterInputs(others);
    assert NodesOf(modules) == before[key := m.Value()] by {
      forall k | k in modules
        ensures modules[k].Value() == before[key := m.Value()][k]
      {
        if k != key {
          assert modules[k] != m;
        }
      }
    }
  }

  /** The loop over the modules: each registers its inputs among the
      modules under the other keys. */
  method RegisterAll(keys: seq<string>, modules: map<string, Module>)
    requires Ordered(Table(keys, NodesOf(modules))) && Separate(modules)
    modifies modules.Values
    ensures NodesOf(modules) == Configured(Table(keys, old(NodesOf(modules))))
  {
    ghost var t := Table(keys, NodesOf(modules));
    for i := 0 to |keys|
      invariant NodesOf(modules) == Partly(t, keys[..i])
    {
      var key := keys[i];
      assert key in t.nodes && key in modules;
      assert key !in keys[..i];
      assert keys[..i + 1] == keys[..i] + [key];
      OthersLinks(keys, modules, t.nodes, modules[key].key);
      RegisterOne(modules, key, Others(keys, modules, modules[key].key));
      PartlyStep(t, keys[..i], key);
    }
    assert keys[..|keys|] == keys;
  }

  // ---------------------------------------------------------------------------
  // The manager

  /** `ModuleManager`: the modules by key, each its own object, and the
      counters.  The dictionary itself is never replaced. */
  class ModuleManager {
    const modules: map<string, Module>
    var low: nat
    var high: nat
    var presses: nat
    var found: bool

    ghost predicate Valid()
    {
      Separate(modules)
    }

    ghost function Nodes(): map<string, Node>
      reads modules.Values
    {
      NodesOf(modules)
    }

    ghost function State(): Network
      reads this, modules.Values
    {
      Network(Nodes(), low, high, presses, found)
    }

    constructor(modules: map<string, Module>)
      ensures this.modules == modules
      ensures low == 0 && high == 0 && presses == 0 && !found
    {
      this.modules := modules;
      low := 0;
      high := 0;
      presses := 0;
      found := false;
    }

    /** `from_module_configuration`: one fresh module object per key of the
        dictionary the lines describe, each of which then registers its
        inputs among the modules under the other keys. */
    static method FromConfiguration(config: string) returns (r: Result<ModuleManager>)
      ensures r.Err? ==> Configure(config) == Err(r.failure)
      ensures r.Ok? ==> fresh(r.value) && fresh(r.value.modules.Values) && r.value.Valid()
      ensures r.Ok? ==> Configure(config) == Ok(r.value.Nodes())
      ensures r.Ok? ==> r.value.low == 0 && r.value.high == 0 && r.value.presses == 0 && !r.value.found
    {
      var failure, keys, modules := ReadModules(Text.Split(config, "\n"));
      if failure.Some? {
        return Err(failure.value);
      }
      RegisterAll(keys, modules);
      var manager := new ModuleManager(modules);
      return Ok(manager);
    }
    /** `pulse_product`. */
    function PulseProduct(): int
      reads this
    {
      low * high
    }

    /** One pulse taken off the queue: it is counted and the module with
        the receiver's key, if any, reacts to it; the pulses that causes. */
    method Take(p: Pulse) returns (out: seq<Pulse>)
      requires Valid()
      modifies this, modules.Values
      ensures State() == Deliver(Counted(old(State()), p), p).0
      ensures out == Deliver(Counted(old(State()), p), p).1
    {
      if p.level == Low {
        low := low + 1;
      } else {
        high := high + 1;
      }
      out := [];
      if p.receiver in modules {
        var m := modules[p.receiver];
        ghost var counted := Nodes();
        out := m.Receive(p);
        assert Nodes() == counted[p.receiver := m.Value()] by {
          forall k | k in modules
            ensures modules[k].Value() == counted[p.receiver := m.Value()][k]
          {
            if k != p.receiver {
              assert modules[k] != m;
            }
          }
        }
      }
    }

    /** `press_button`: the queue loop runs over the module objects;
        `finished` is false only when the step bound ran out. */
    method PressButton(look: Option<Pulse>, fuel: nat) returns (finished: bool)
      requires Valid()
      modifies this, modules.Values
      ensures State() == Press(old(State()), look, fuel).net
      ensures finished == (Press(old(State()), look, fuel).status != OutOfSteps)
    {
      ghost var run := Press(State(), look, fuel);
      presses := presses + 1;
      var queue := [ButtonPulse];
      var steps := fuel;
      while |queue| > 0
        invariant Drain(State(), queue, look, steps).net == run.net
        invariant Drain(State(), queue, look, steps).status == run.status
        decreases steps
      {
        if steps == 0 {
          return false;
        }
        var p := queue[0];
        if look.Some? && SamePulse(p, look.value) {
          found := true;
          return true;
        }
        ghost var before := State();
        DrainStep(before, queue, look, steps);
        var out := Take(p);
        queue := queue[1..] + out;
        steps := steps - 1;
      }
      return true;
    }
  }

  // ---------------------------------------------------------------------------
  // The puzzle

  /** The network a configuration starts from: nothing counted, nothing
      pressed, nothing found. */
  function Start(nodes: map<string, Node>): Network
  {
    Network(nodes, 0, 0, 0, false)
  }

  /** `solve_part_one`: the product of the low and high pulses counted over
      1000 presses, each press taking at most `fuel` pulses. */
  function PartOne(input: string, fuel: nat): Result<int>
  {
    match Configure(input)
    case Err(e) => Err(e)
    case Ok(nodes) =>
      var r := Presses(Start(nodes), 1000, None, fuel);
      if r.status == OutOfSteps then Err(OutOfFuel) else Ok(r.net.low * r.net.high)
  }

  /** Each press's first pulse is the button's low pulse, so `n` finished
      presses count at least `n` low pulses. */
  lemma {:induction false} PressesLowBound(net: Network, n: nat, fuel: nat)
    requires fuel > 0
    requires Presses(net, n, None, fuel).status != OutOfSteps
    ensures Tally(Presses(net, n, None, fuel).trace, Low) >= n
  {
    if n > 0 {
      var before := Presses(net, n - 1, None, fuel);
      PressesLowBound(net, n - 1, fuel);
      var last := Press(before.net, None, fuel);
      PressCounts(before.net, None, fuel);
      TallyAppend(before.trace, last.trace, Low);
      assert last.trace == [last.trace[0]] + last.trace[1..];
      TallyAppend([last.trace[0]], last.trace[1..], Low);
    }
  }

  /** Part one is the number of low pulses times the number of high pulses
      the 1000 presses counted, with at least 1000 low ones. */
  lemma PartOneProduct(input: string, fuel: nat)
    requires PartOne(input, fuel).Ok?
    ensures var trace := Presses(Start(Configure(input).value), 1000, None, fuel).trace;
      && PartOne(input, fuel).value == Tally(trace, Low) * Tally(trace, High)
      && (fuel > 0 ==> Tally(trace, Low) >= 1000)
  {
    PressesCounts(Start(Configure(input).value), 1000, None, fuel);
    if fuel > 0 {
      PressesLowBound(Start(Configure(input).value), 1000, fuel);
    }
  }

  method SolvePartOne(input: string, fuel: nat) returns (r: Result<int>)
    ensures r == PartOne(input, fuel)
  {
    var made := ModuleManager.FromConfiguration(input);
    if made.Err? {
      return Err(made.failure);
    }
    var manager := made.value;
    ghost var start := Start(manager.Nodes());
    for i := 0 to 1000
      invariant manager.Valid()
      invariant manager.State() == Presses(start, i, None, fuel).net
      invariant Presses(start, i, None, fuel).status != OutOfSteps
    {
      var finished := manager.PressButton(None, fuel);
      if !finished {
        PressesStuck(start, i + 1, 1000, None, fuel);
        return Err(OutOfFuel);
      }
    }
    return Ok(manager.PulseProduct());
  }

  /** Once a press runs out of steps, no press after it happens. */
  lemma {:induction false} PressesStuck(net: Network, i: nat, n: nat, look: Option<Pulse>, fuel: nat)
    requires i <= n
    requires Presses(net, i, look, fuel).status == OutOfSteps
    ensures Presses(net, n, look, fuel) == Presses(net, i, look, fuel)
    decreases n
  {
    if i < n {
      PressesStuck(net, i, n - 1, look, fuel);
    }
  }

  /** The pulse part two waits for: a low pulse to `rx`. */
  const RxPulse := Pulse(Low, "", "rx")

  /** The loop of `solve_part_two`: press until the pulse looked for has
      come off the queue, at most `limit` more times; the presses so far. */
  function Search(net: Network, limit: nat, fuel: nat): Result<int>
    decreases limit
  {
    if net.found then Ok(net.presses)
    else if limit == 0 then Err(OutOfFuel)
    else
      var r := Press(net, Some(RxPulse), fuel);
      if r.status == OutOfSteps then Err(OutOfFuel) else Search(r.net, limit - 1, fuel)
  }

  /** `solve_part_two`, with at most `limit` presses of at most `fuel`
      pulses each. */
  function PartTwo(input: string, limit: nat, fuel: nat): Result<int>
  {
    match Configure(input)
    case Err(e) => Err(e)
    case Ok(nodes) => Search(Start(nodes), limit, fuel)
  }

  /** Presses in a row can be counted from the front: one press, then the
      rest from where it left off. */
  lemma {:induction false} PressesFront(net: Network, n: nat, look: Option<Pulse>, fuel: nat)
    requires Press(net, look, fuel).status != OutOfSteps
    ensures Presses(net, n + 1, look, fuel).net == Presses(Press(net, look, fuel).net, n, look, fuel).net
    ensures (Presses(net, n + 1, look, fuel).status == OutOfSteps) == (Presses(Press(net, look, fuel).net, n, look, fuel).status == OutOfSteps)
  {
    if n > 0 {
      PressesFront(net, n - 1, look, fuel);
    }
  }

  /** `k` presses find the pulse looked for, and no fewer do. */
  ghost predicate FirstFound(net: Network, k: nat, look: Option<Pulse>, fuel: nat)
  {
    && Presses(net, k, look, fuel).net.found
    && Presses(net, k, look, fuel).status != OutOfSteps
    && forall j :: 0 <= j < k ==> !Presses(net, j, look, fuel).net.found
  }

  /** A first press that finds it is the first to. */
  lemma FirstFoundNow(net: Network, look: Option<Pulse>, fuel: nat)
    requires !net.found
    requires Press(net, look, fuel).net.found && Press(net, look, fuel).status != OutOfSteps
    ensures FirstFound(net, 1, look, fuel)
  {
    assert Presses(net, 0, look, fuel).net == net;
  }

  /** A first press that does not find it delays the first that does by one. */
  lemma FirstFoundLater(net: Network, k: nat, look: Option<Pulse>, fuel: nat)
    requires !net.found
    requires !Press(net, look, fuel).net.found && Press(net, look, fuel).status != OutOfSteps
    requires FirstFound(Press(net, look, fuel).net, k, look, fuel)
    ensures FirstFound(net, k + 1, look, fuel)
  {
    PressesFront(net, k, look, fuel);
    forall j | 0 <= j < k + 1
      ensures !Presses(net, j, look, fuel).net.found
    {
      if j > 0 {
        PressesFront(net, j - 1, look, fuel);
      }
    }
  }

  /** Part two answers the number of the first press during which a low
      pulse to `rx` came off the queue: that many presses find it, and no
      fewer do. */
  lemma {:induction false} SearchFindsFirst(net: Network, limit: nat, fuel: nat)
    requires Search(net, limit, fuel).Ok? && !net.found
    ensures var k := Search(net, limit, fuel).value - net.presses;
      1 <= k <= limit && FirstFound(net, k, Some(RxPulse), fuel)
    decreases limit
  {
    var first := Press(net, Some(RxPulse), fuel);
    DrainCounts(net.(presses := net.presses + 1), [ButtonPulse], Some(RxPulse), fuel);
    assert Accounted(net.(presses := net.presses + 1), Some(RxPulse), first);
    if first.net.found {
      FirstFoundNow(net, Some(RxPulse), fuel);
    } else {
      SearchFindsFirst(first.net, limit - 1, fuel);
      FirstFoundLater(net, Search(first.net, limit - 1, fuel).value - first.net.presses, Some(RxPulse), fuel);
    }
  }

  method SolvePartTwo(input: string, limit: nat, fuel: nat) returns (r: Result<int>)
    ensures r == PartTwo(input, limit, fuel)
  {
    var made := ModuleManager.FromConfiguration(input);
    if made.Err? {
      return Err(made.failure);
    }
    var manager := made.value;
    var rounds := limit;
    while !manager.found
      invariant manager.Valid()
      invariant Search(manager.State(), rounds, fuel) == PartTwo(input, limit, fuel)
      decreases rounds
    {
      if rounds == 0 {
        return Err(OutOfFuel);
      }
      var finished := manager.PressButton(Some(RxPulse), fuel);
      if !finished {
        return Err(OutOfFuel);
      }
      rounds := rounds - 1;
    }
    return Ok(manager.presses);
  }
}
