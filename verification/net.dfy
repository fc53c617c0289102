/** Wires, ports and the rendezvous of src/natsune/backend/connector.py, with the
    reference counts that linearity is about. */
module Nets {
  import opened Options

  type Wire = nat
  type Value = int

  // The data that wires carry, whichever end produces it: an erasure is a hole.
  datatype Tree = Data(value: Value) | Hole | Tupled(left: Tree, right: Tree)

  // src/natsune/first_order/ports.py. A Graft names its expansion.
  datatype Port =
    | WirePort(wire: Wire)
    | ValuePort(value: Value)
    | Erasure(failed: bool)
    | Comb(tag: string, left: Wire, right: Wire)
    | Merge(merge: (Value, Value) -> Option<Value>, operand: Wire, result: Wire, swapped: bool)
    | Split(split: Value -> Option<(Value, Value)>, first: Wire, second: Wire)
    | Graft(agent: nat, wires: seq<Wire>)

  type Pair = (Port, Port)

  function Wires(p: Port): seq<Wire> {
    match p
    case WirePort(w) => [w]
    case ValuePort(_) => []
    case Erasure(_) => []
    case Comb(_, a, b) => [a, b]
    case Merge(_, a, b, _) => [a, b]
    case Split(_, a, b) => [a, b]
    case Graft(_, ws) => ws
  }

  // The same port on other wires.
  function Rewired(p: Port, ws: seq<Wire>): (r: Port)
    requires |ws| == |Wires(p)|
    ensures Wires(r) == ws
    ensures ws == Wires(p) ==> r == p
  {
    match p
    case WirePort(_) => WirePort(ws[0])
    case ValuePort(_) => p
    case Erasure(_) => p
    case Comb(tag, _, _) => Comb(tag, ws[0], ws[1])
    case Merge(f, _, _, swapped) => Merge(f, ws[0], ws[1], swapped)
    case Split(f, _, _) => Split(f, ws[0], ws[1])
    case Graft(agent, _) => Graft(agent, ws)
  }

  // Only the wires change: on its old wires it is the port it was.
  lemma RewiredBack(p: Port, ws: seq<Wire>)
    requires |ws| == |Wires(p)|
    ensures Rewired(Rewired(p, ws), Wires(p)) == p
  {
  }

  /* `spent` is bookkeeping the code does not keep: the set wires whose reference
     has been used up. Their target stays behind and is garbage. */
  datatype Net = Net(target: map<Wire, Port>, spent: set<Wire>, pairs: seq<Pair>)

  datatype Target = AtWire(wire: Wire) | AtPort(port: Port)

  function ConnectPorts(net: Net, l: Port, r: Port): Net {
    net.(pairs := net.pairs + [(l, r)])
  }

  // First comer sets the target, the second makes an active pair of both.
  function ConnectWireToPort(net: Net, w: Wire, p: Port): Net {
    if w !in net.target then net.(target := net.target[w := p])
    else ConnectPorts(net, net.target[w], p).(spent := net.spent + {w})
  }

  function Connect(net: Net, l: Target, r: Target): Net {
    match (l, r)
    case (AtPort(p), AtPort(q)) => ConnectPorts(net, p, q)
    case (AtPort(p), AtWire(w)) => ConnectWireToPort(net, w, p)
    case (AtWire(w), AtPort(p)) => ConnectWireToPort(net, w, p)
    case (AtWire(v), AtWire(w)) => ConnectWireToPort(net, v, WirePort(w))
  }

  /* ---- Counting references ---- */

  function One(v: Wire, w: Wire): nat {
    if v == w then 1 else 0
  }

  function Occurrences(ws: seq<Wire>, w: Wire): nat {
    if ws == [] then 0 else One(ws[0], w) + Occurrences(ws[1..], w)
  }

  function PortCount(p: Port, w: Wire): nat {
    match p
    case WirePort(a) => One(a, w)
    case ValuePort(_) => 0
    case Erasure(_) => 0
    case Comb(_, a, b) => One(a, w) + One(b, w)
    case Merge(_, a, b, _) => One(a, w) + One(b, w)
    case Split(_, a, b) => One(a, w) + One(b, w)
    case Graft(_, ws) => Occurrences(ws, w)
  }

  function TargetCount(t: Target, w: Wire): nat {
    match t
    case AtWire(v) => One(v, w)
    case AtPort(p) => PortCount(p, w)
  }

  function PairCount(pair: Pair, w: Wire): nat {
    PortCount(pair.0, w) + PortCount(pair.1, w)
  }

  function PairsCount(pairs: seq<Pair>, w: Wire): nat {
    if pairs == [] then 0
    else PairsCount(pairs[..|pairs| - 1], w) + PairCount(pairs[|pairs| - 1], w)
  }

  ghost function MapCount(m: map<Wire, Port>, w: Wire): nat
    decreases |m|
  {
    if m == map[] then 0
    else
      var v :| v in m;
      PortCount(m[v], w) + MapCount(m - {v}, w)
  }

  // Targets that can still be reached: a used wire's target lives in a pair now.
  function Live(net: Net): map<Wire, Port> {
    map w | w in net.target && w !in net.spent :: net.target[w]
  }

  ghost function NetCount(net: Net, w: Wire): nat {
    PairsCount(net.pairs, w) + MapCount(Live(net), w)
  }

  function Allowed(net: Net, w: Wire): nat {
    if w in net.spent then 0 else if w in net.target then 1 else 2
  }

  /* Linearity at one wire, counting also the references held outside the net:
     two while it is unset, one once it is set, none once that one is used. */
  ghost predicate LinearAt(net: Net, w: Wire, held: nat) {
    NetCount(net, w) + held <= Allowed(net, w)
  }

  lemma {:induction false} MapCountRemove(m: map<Wire, Port>, v: Wire, w: Wire)
    requires v in m
    ensures MapCount(m, w) == PortCount(m[v], w) + MapCount(m - {v}, w)
    decreases |m|
  {
    var u :| u in m && MapCount(m, w) == PortCount(m[u], w) + MapCount(m - {u}, w);
    if u != v {
      MapCountRemove(m - {u}, v, w);
      MapCountRemove(m - {v}, u, w);
      assert m - {u} - {v} == m - {v} - {u};
    }
  }

  lemma MapCountAdd(m: map<Wire, Port>, v: Wire, p: Port, w: Wire)
    requires v !in m
    ensures MapCount(m[v := p], w) == PortCount(p, w) + MapCount(m, w)
  {
    MapCountRemove(m[v := p], v, w);
    assert m[v := p] - {v} == m;
  }

  lemma PairsCountAdd(pairs: seq<Pair>, pair: Pair, w: Wire)
    ensures PairsCount(pairs + [pair], w) == PairsCount(pairs, w) + PairCount(pair, w)
  {
    assert (pairs + [pair])[..|pairs|] == pairs;
  }

  function Without<T>(s: seq<T>, i: nat): seq<T>
    requires i < |s|
  {
    s[..i] + s[i + 1..]
  }

  lemma {:induction false} PairsCountRemove(pairs: seq<Pair>, i: nat, w: Wire)
    requires i < |pairs|
    ensures PairsCount(pairs, w) == PairsCount(Without(pairs, i), w) + PairCount(pairs[i], w)
    decreases |pairs|
  {
    var last := |pairs| - 1;
    var front := pairs[..last];
    if i == last {
      assert Without(pairs, i) == front;
    } else {
      PairsCountRemove(front, i, w);
      assert Without(pairs, i) == Without(front, i) + [pairs[last]];
      PairsCountAdd(Without(front, i), pairs[last], w);
    }
  }

  lemma OccurrencesOfPort(p: Port, w: Wire)
    ensures Occurrences(Wires(p), w) == PortCount(p, w)
  {
    match p
    case WirePort(a) => OneOccurs(a, w);
    case Comb(_, a, b) => TwoOccur(a, b, w);
    case Merge(_, a, b, _) => TwoOccur(a, b, w);
    case Split(_, a, b) => TwoOccur(a, b, w);
    case _ =>
  }

  lemma OneOccurs(a: Wire, w: Wire)
    ensures Occurrences([a], w) == One(a, w)
  {
    assert [a][1..] == [];
  }

  lemma TwoOccur(a: Wire, b: Wire, w: Wire)
    ensures Occurrences([a, b], w) == One(a, w) + One(b, w)
  {
    assert [a, b][1..] == [b];
    OneOccurs(b, w);
  }

  /* ---- Connecting ---- */

  lemma RendezvousCount(net: Net, v: Wire, p: Port, w: Wire)
    requires net.spent <= net.target.Keys && v !in net.spent
    ensures NetCount(ConnectWireToPort(net, v, p), w) == NetCount(net, w) + PortCount(p, w)
  {
    var net' := ConnectWireToPort(net, v, p);
    if v !in net.target {
      assert Live(net') == Live(net)[v := p];
      MapCountAdd(Live(net), v, p, w);
    } else {
      PairsCountAdd(net.pairs, (net.target[v], p), w);
      assert Live(net') == Live(net) - {v};
      MapCountRemove(Live(net), v, w);
    }
  }

  // The wire a connect sets or uses up, if any.
  function Meets(l: Target, r: Target): Option<Wire> {
    if l.AtWire? then Some(l.wire) else if r.AtWire? then Some(r.wire) else None
  }

  // Whether connecting l to r sets or uses up w.
  function Met(l: Target, r: Target, w: Wire): nat {
    if Meets(l, r) == Some(w) then 1 else 0
  }

  lemma ConnectCount(net: Net, l: Target, r: Target, w: Wire)
    requires net.spent <= net.target.Keys
    requires Meets(l, r).Some? ==> Meets(l, r).value !in net.spent
    ensures NetCount(Connect(net, l, r), w) + Met(l, r, w) == NetCount(net, w) + TargetCount(l, w) + TargetCount(r, w)
  {
    match (l, r)
    case (AtPort(p), AtPort(q)) =>
      PairsCountAdd(net.pairs, (p, q), w);
      assert Live(Connect(net, l, r)) == Live(net);
    case (AtPort(p), AtWire(v)) => RendezvousCount(net, v, p, w);
    case (AtWire(v), AtPort(p)) => RendezvousCount(net, v, p, w);
    case (AtWire(u), AtWire(v)) => RendezvousCount(net, u, WirePort(v), w);
  }

  lemma ConnectAllowed(net: Net, l: Target, r: Target, w: Wire)
    requires net.spent <= net.target.Keys
    requires Meets(l, r).Some? ==> Meets(l, r).value !in net.spent
    ensures Allowed(Connect(net, l, r), w) + Met(l, r, w) == Allowed(net, w)
    ensures Connect(net, l, r).spent <= Connect(net, l, r).target.Keys
  {
  }

  /** Every connect keeps linearity: the references it consumes move into the net,
      and the wire it sets or uses up is allowed one fewer. */
  lemma ConnectLinear(net: Net, l: Target, r: Target, w: Wire, held: nat)
    requires net.spent <= net.target.Keys
    requires Meets(l, r).Some? ==> Meets(l, r).value !in net.spent
    requires LinearAt(net, w, held + TargetCount(l, w) + TargetCount(r, w))
    ensures LinearAt(Connect(net, l, r), w, held)
    ensures Connect(net, l, r).spent <= Connect(net, l, r).target.Keys
  {
    ConnectCount(net, l, r, w);
    ConnectAllowed(net, l, r, w);
  }

  /** A held reference is never to a used-up wire: no wire meets a third end. */
  lemma NoThirdEnd(net: Net, l: Target, r: Target, held: nat)
    requires Meets(l, r).Some?
    requires var w := Meets(l, r).value; LinearAt(net, w, held + TargetCount(l, w) + TargetCount(r, w))
    ensures Meets(l, r).value !in net.spent
  {
  }
}
