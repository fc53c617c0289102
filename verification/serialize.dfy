/** serialize_values of src/natsune/backend/registers.py: a chain of merge agents
    that folds its operands in index order, whatever order they arrive in. */
module Serialize {
  import opened Options
  import opened Nets
  import opened Interactions
  import opened Machine
  import opened Solutions
  import opened Determinacy

  type Join = (Value, Value) -> Option<Value>

  // Agent i merges the accumulator with the operand on wire 2i, onto wire 2i + 1.
  function Agent(join: Join, i: nat): Port {
    Merge(join, 2 * i, 2 * i + 1, false)
  }

  function Accumulator(unit: Value, i: nat): Target {
    if i == 0 then AtPort(ValuePort(unit)) else AtWire(2 * i - 1)
  }

  function Chain(join: Join, unit: Value, count: nat): Net {
    if count == 0 then Net(map[], {}, [])
    else Connect(Chain(join, unit, count - 1), Accumulator(unit, count - 1), AtPort(Agent(join, count - 1)))
  }

  /** The loop of serialize_values. */
  method SerializeValues(join: Join, unit: Value, count: nat) returns (net: Net, acc: Target)
    ensures net == Chain(join, unit, count) && acc == Accumulator(unit, count)
  {
    net, acc := Net(map[], {}, []), AtPort(ValuePort(unit));
    var i := 0;
    while i < count
      invariant 0 <= i <= count
      invariant net == Chain(join, unit, i) && acc == Accumulator(unit, i)
    {
      net := Connect(net, acc, AtPort(Agent(join, i)));
      acc := AtWire(2 * i + 1);
      i := i + 1;
    }
  }

  // A value, or the erasure that stands for one whose computation raised.
  type Operand = Option<Value>

  function Sent(v: Operand): Port {
    if v.Some? then ValuePort(v.value) else Erasure(true)
  }

  // Each operand is delivered by a worker of its own.
  function Arrivals(vs: seq<Operand>): seq<seq<Link>> {
    if vs == [] then []
    else Arrivals(vs[..|vs| - 1]) + [[(AtPort(Sent(vs[|vs| - 1])), AtWire(2 * (|vs| - 1)))]]
  }

  function Loaded(join: Join, unit: Value, vs: seq<Operand>): System {
    System(Chain(join, unit, |vs|), Arrivals(vs), 2 * |vs|)
  }

  /* ---- What the chain is ---- */

  lemma {:induction false} ChainShape(join: Join, unit: Value, count: nat)
    ensures var net := Chain(join, unit, count);
            && net.spent == {}
            && net.pairs == (if count == 0 then [] else [(ValuePort(unit), Agent(join, 0))])
            && (forall w: Wire :: w in net.target <==> w % 2 == 1 && w + 1 < 2 * count)
            && (forall w :: w in net.target ==> net.target[w] == Agent(join, w / 2 + 1))
  {
    if count > 0 {
      var i := count - 1;
      ChainShape(join, unit, i);
      var before, net := Chain(join, unit, i), Chain(join, unit, count);
      forall w: Wire ensures w in net.target <==> w % 2 == 1 && w + 1 < 2 * count {
        if i > 0 {
          assert net.target == before.target[2 * i - 1 := Agent(join, i)];
        } else {
          assert net.target == map[];
        }
      }
      assert i > 0 ==> (2 * i - 1) / 2 + 1 == i;
    }
  }

  lemma {:induction false} ChainCount(join: Join, unit: Value, count: nat, w: Wire)
    ensures NetCount(Chain(join, unit, count), w) == if w < 2 * count then 1 else 0
  {
    hide NetCount, Chain;
    if count > 0 {
      ChainCount(join, unit, count - 1, w);
      LinkCounts(join, unit, count - 1, w);
    } else {
      EmptyCount(join, unit, w);
    }
  }

  lemma EmptyCount(join: Join, unit: Value, w: Wire)
    ensures NetCount(Chain(join, unit, 0), w) == 0
  {
    assert Live(Chain(join, unit, 0)) == map[];
  }

  lemma LinkCounts(join: Join, unit: Value, i: nat, w: Wire)
    ensures NetCount(Chain(join, unit, i + 1), w)
            == NetCount(Chain(join, unit, i), w) + One(2 * i, w) + One(2 * i + 1, w)
  {
    hide NetCount;
    ChainShape(join, unit, i);
    ConnectCount(Chain(join, unit, i), Accumulator(unit, i), AtPort(Agent(join, i)), w);
  }

  lemma {:induction false} ArrivalsShape(vs: seq<Operand>)
    ensures |Arrivals(vs)| == |vs|
    ensures forall i :: 0 <= i < |vs| ==> Arrivals(vs)[i] == [(AtPort(Sent(vs[i])), AtWire(2 * i))]
    decreases |vs|
  {
    if vs != [] {
      ArrivalsShape(vs[..|vs| - 1]);
    }
  }

  lemma {:induction false} ArrivalsCount(vs: seq<Operand>, w: Wire)
    ensures InflightCount(Arrivals(vs), w) == if w % 2 == 0 && w < 2 * |vs| then 1 else 0
    decreases |vs|
  {
    hide Arrivals, InflightCount, LinksCount;
    if vs == [] {
      NoArrivals(w);
    } else {
      var n := |vs| - 1;
      ArrivalsCount(vs[..n], w);
      LastArrivalCount(vs, w);
    }
  }

  lemma NoArrivals(w: Wire)
    ensures InflightCount(Arrivals([]), w) == 0
  {
  }

  lemma LastArrivalCount(vs: seq<Operand>, w: Wire)
    requires vs != []
    ensures InflightCount(Arrivals(vs), w) == InflightCount(Arrivals(vs[..|vs| - 1]), w) + One(2 * (|vs| - 1), w)
  {
    var n := |vs| - 1;
    var link := (AtPort(Sent(vs[n])), AtWire(2 * n));
    InflightAdd(Arrivals(vs[..n]), [link], w);
    assert [link][1..] == [];
  }

  lemma LoadedIsLinear(join: Join, unit: Value, vs: seq<Operand>)
    ensures Linear(Loaded(join, unit, vs))
  {
    var s := Loaded(join, unit, vs);
    ChainShape(join, unit, |vs|);
    forall w: Wire
      ensures LinearAt(s.net, w, InflightCount(s.inflight, w))
              && (w >= s.next ==> NetCount(s.net, w) + InflightCount(s.inflight, w) == 0)
    {
      ChainCount(join, unit, |vs|, w);
      ArrivalsCount(vs, w);
    }
  }

  /* ---- What its equations say ---- */

  // The fold of the first i operands, from the left; None where join raises or an
  // operand is erased.
  function Folded(join: Join, unit: Value, vs: seq<Operand>, i: nat): Option<Value>
    requires i <= |vs|
  {
    if i == 0 then Some(unit)
    else match Folded(join, unit, vs, i - 1)
      case None => None
      case Some(acc) => if vs[i - 1].None? then None else join(acc, vs[i - 1].value)
  }

  function Carried(v: Option<Value>): Tree {
    if v.Some? then Data(v.value) else Hole
  }

  function Flow(join: Join, unit: Value, vs: seq<Operand>): Wire -> Tree {
    (w: Wire) =>
      if w >= 2 * |vs| then Hole
      else if w % 2 == 0 then Carried(vs[w / 2])
      else Carried(Folded(join, unit, vs, w / 2 + 1))
  }

  lemma AgentFlows(join: Join, unit: Value, vs: seq<Operand>, i: nat, t: Tree)
    requires i < |vs|
    requires t == Carried(Folded(join, unit, vs, i))
    ensures Accepts(Trees(), Agent(join, i), t, Flow(join, unit, vs))
  {
    assert Flow(join, unit, vs)(2 * i) == Carried(vs[i]);
    assert (2 * i + 1) / 2 == i;
  }

  lemma TargetsFlow(join: Join, unit: Value, vs: seq<Operand>, w: Wire)
    requires w in Chain(join, unit, |vs|).target
    ensures var sigma := Flow(join, unit, vs); Accepts(Trees(), Chain(join, unit, |vs|).target[w], sigma(w), sigma)
  {
    ChainShape(join, unit, |vs|);
    AgentFlows(join, unit, vs, w / 2 + 1, Flow(join, unit, vs)(w));
  }

  lemma PairFlows(join: Join, unit: Value, vs: seq<Operand>)
    requires vs != []
    ensures Consistent(Trees(), AtPort(ValuePort(unit)), AtPort(Agent(join, 0)), Flow(join, unit, vs))
  {
    AgentFlows(join, unit, vs, 0, Data(unit));
    Linked(Trees(), AtPort(ValuePort(unit)), AtPort(Agent(join, 0)), Data(unit), Flow(join, unit, vs));
  }

  lemma ArrivalFlows(join: Join, unit: Value, vs: seq<Operand>, k: nat)
    requires k < |vs|
    ensures Consistent(Trees(), AtPort(Sent(vs[k])), AtWire(2 * k), Flow(join, unit, vs))
  {
    assert (2 * k) / 2 == k;
    Linked(Trees(), AtPort(Sent(vs[k])), AtWire(2 * k), Carried(vs[k]), Flow(join, unit, vs));
  }

  lemma FlowSolves(join: Join, unit: Value, vs: seq<Operand>)
    ensures Solves(Trees(), Loaded(join, unit, vs), Flow(join, unit, vs))
  {
    hide Accepts, Consistent, Flow, Chain, Arrivals, Trees;
    var s, sigma := Loaded(join, unit, vs), Flow(join, unit, vs);
    ChainShape(join, unit, |vs|);
    ArrivalsShape(vs);
    forall w | w in Live(s.net) ensures Accepts(Trees(), s.net.target[w], sigma(w), sigma) {
      TargetsFlow(join, unit, vs, w);
    }
    if vs != [] {
      PairFlows(join, unit, vs);
    }
    forall k, j | 0 <= k < |s.inflight| && 0 <= j < |s.inflight[k]|
      ensures Consistent(Trees(), s.inflight[k][j].0, s.inflight[k][j].1, sigma)
    {
      ArrivalFlows(join, unit, vs, k);
    }
  }

  /* ---- A chain only ever holds values, erasures, wires and merges ---- */

  predicate Plain(p: Port) {
    p.WirePort? || p.ValuePort? || p.Erasure? || p.Merge?
  }

  predicate PlainTarget(x: Target) {
    x.AtPort? ==> Plain(x.port)
  }

  predicate PlainLinks(links: seq<Link>) {
    forall j :: 0 <= j < |links| ==> PlainTarget(links[j].0) && PlainTarget(links[j].1)
  }

  predicate PlainSystem(s: System) {
    && (forall w :: w in s.net.target ==> Plain(s.net.target[w]))
    && (forall i :: 0 <= i < |s.net.pairs| ==> Plain(s.net.pairs[i].0) && Plain(s.net.pairs[i].1))
    && (forall k :: 0 <= k < |s.inflight| ==> PlainLinks(s.inflight[k]))
  }

  lemma {:induction false} ErasePlain(ws: seq<Wire>)
    ensures PlainLinks(Erase(ws))
    decreases |ws|
  {
    if ws != [] {
      ErasePlain(ws[1..]);
    }
  }

  lemma RulesStayPlain(l: Port, r: Port, seen: Option<Port>, next: Wire)
    requires Plain(l) && Plain(r) && Interact(l, r, seen, next).Some?
    ensures PlainLinks(Interact(l, r, seen, next).value)
  {
    ErasePlain(Wires(l));
    ErasePlain(Wires(r));
  }

  lemma StepStaysPlain(s: System, move: Move)
    requires PlainSystem(s) && Enabled(map[], s, move)
    ensures PlainSystem(Step(map[], s, move)) && !move.Expand?
  {
    match move
    case Start(i) =>
      var (l, r) := s.net.pairs[i];
      RulesStayPlain(l, r, Observed(s.net, l, r), s.next);
    case Act(k) => assert PlainLinks(s.inflight[k]);
    case Expand(_, _, _, _, _) =>
  }

  lemma {:induction false} RunStaysPlain(states: seq<System>, moves: seq<Move>, i: nat)
    requires Run(map[], states, moves) && PlainSystem(states[0]) && i < |states|
    ensures PlainSystem(states[i]) && (i < |moves| ==> !moves[i].Expand?)
    decreases i
  {
    if i > 0 {
      RunStaysPlain(states, moves, i - 1);
      assert Enabled(map[], states[i - 1], moves[i - 1]);
      StepStaysPlain(states[i - 1], moves[i - 1]);
    }
    if i < |moves| {
      assert Enabled(map[], states[i], moves[i]);
      StepStaysPlain(states[i], moves[i]);
    }
  }

  lemma LoadedIsPlain(join: Join, unit: Value, vs: seq<Operand>)
    ensures PlainSystem(Loaded(join, unit, vs))
  {
    ChainShape(join, unit, |vs|);
    ArrivalsShape(vs);
  }

  lemma PlainRunsAreStraight(states: seq<System>, moves: seq<Move>)
    requires Run(map[], states, moves) && PlainSystem(states[0])
    ensures Straight(states, moves)
  {
    forall j | 0 <= j < |moves| && moves[j].Start? && moves[j].pair < |states[j].net.pairs|
      ensures var (l, r) := states[j].net.pairs[moves[j].pair]; !Crosses(l, r) && Tagged(l) && Tagged(r)
    {
      RunStaysPlain(states, moves, j);
    }
  }

  /** Whatever the arrival order and the schedule, a value that comes out of the
      chain is the fold of all its operands in index order. */
  lemma SerializesInOrder(join: Join, unit: Value, vs: seq<Operand>, states: seq<System>, moves: seq<Move>,
                          i: nat, v: Value)
    requires vs != [] && Run(map[], states, moves) && states[0] == Loaded(join, unit, vs) && i < |states|
    requires var out := 2 * |vs| - 1; out in Live(states[i].net) && states[i].net.target[out] == ValuePort(v)
    ensures Folded(join, unit, vs, |vs|) == Some(v)
  {
    var out := 2 * |vs| - 1;
    LoadedIsLinear(join, unit, vs);
    LoadedIsPlain(join, unit, vs);
    FlowSolves(join, unit, vs);
    PlainRunsAreStraight(states, moves);
    ValuesAreDetermined(map[], (agent, t, u) => true, states, moves, Flow(join, unit, vs), i, out, v);
    assert out / 2 + 1 == |vs|;
  }
}
