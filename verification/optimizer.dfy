/** optimize of src/natsune/backend/optimizer.py on a connector: it ends at a
    fixpoint, keeps the net linear and changes no solution of the net. */
module Optimizer {
  import opened Options
  import opened Nets
  import opened Interactions

  /* ---- What a net means: the equations its connections state ---- */

  /* Terms, not the data of solutions.dfy: an optimizer runs no agent, so each is
     kept as it is, with the terms of its wires. */

  datatype Term =
    | Constant(value: Value)
    | Nothing
    | Combined(tag: string, left: Term, right: Term)
    | Merging(merge: (Value, Value) -> Option<Value>, operand: Term, result: Term, swapped: bool)
    | Splitting(split: Value -> Option<(Value, Value)>, first: Term, second: Term)
    | Grafting(agent: nat, parts: seq<Term>)

  ghost function Denotes(p: Port, sigma: Wire -> Term): Term {
    match p
    case WirePort(w) => sigma(w)
    case ValuePort(v) => Constant(v)
    case Erasure(_) => Nothing
    case Comb(tag, a, b) => Combined(tag, sigma(a), sigma(b))
    case Merge(f, a, b, swapped) => Merging(f, sigma(a), sigma(b), swapped)
    case Split(f, a, b) => Splitting(f, sigma(a), sigma(b))
    case Graft(agent, ws) => Grafting(agent, seq(|ws|, i requires 0 <= i < |ws| => sigma(ws[i])))
  }

  ghost function TargetDenotes(t: Target, sigma: Wire -> Term): Term {
    match t
    case AtWire(w) => sigma(w)
    case AtPort(p) => Denotes(p, sigma)
  }

  // sigma gives each wire the term at its two ends.
  ghost predicate PairsHold(pairs: seq<Pair>, sigma: Wire -> Term) {
    forall i :: 0 <= i < |pairs| ==> Denotes(pairs[i].0, sigma) == Denotes(pairs[i].1, sigma)
  }

  ghost predicate Satisfies(net: Net, sigma: Wire -> Term) {
    (forall w :: w in net.target ==> sigma(w) == Denotes(net.target[w], sigma)) && PairsHold(net.pairs, sigma)
  }

  ghost predicate LinksHold(links: seq<Link>, sigma: Wire -> Term) {
    forall i :: 0 <= i < |links| ==> TargetDenotes(links[i].0, sigma) == TargetDenotes(links[i].1, sigma)
  }

  lemma ConnectMeans(net: Net, l: Target, r: Target, sigma: Wire -> Term)
    ensures Satisfies(Connect(net, l, r), sigma)
       <==> (Satisfies(net, sigma) && TargetDenotes(l, sigma) == TargetDenotes(r, sigma))
  {
    var net' := Connect(net, l, r);
    match (l, r)
    case (AtPort(p), AtPort(q)) => PairMeans(net.pairs, (p, q), sigma);
    case (AtPort(p), AtWire(w)) => RendezvousMeans(net, w, p, sigma);
    case (AtWire(w), AtPort(p)) => RendezvousMeans(net, w, p, sigma);
    case (AtWire(v), AtWire(w)) => RendezvousMeans(net, v, WirePort(w), sigma);
  }

  lemma PairMeans(pairs: seq<Pair>, pair: Pair, sigma: Wire -> Term)
    ensures PairsHold(pairs + [pair], sigma)
       <==> (PairsHold(pairs, sigma) && Denotes(pair.0, sigma) == Denotes(pair.1, sigma))
  {
    var both := pairs + [pair];
    if PairsHold(both, sigma) {
      assert both[|pairs|] == pair;
      forall i | 0 <= i < |pairs| ensures Denotes(pairs[i].0, sigma) == Denotes(pairs[i].1, sigma) {
        assert both[i] == pairs[i];
      }
    }
  }

  lemma RendezvousMeans(net: Net, w: Wire, p: Port, sigma: Wire -> Term)
    ensures Satisfies(ConnectWireToPort(net, w, p), sigma)
       <==> (Satisfies(net, sigma) && sigma(w) == Denotes(p, sigma))
  {
    var net' := ConnectWireToPort(net, w, p);
    if w in net.target {
      PairMeans(net.pairs, (net.target[w], p), sigma);
    } else {
      assert net'.target[w] == p;
      if Satisfies(net', sigma) {
        forall v | v in net.target ensures sigma(v) == Denotes(net.target[v], sigma) {
          assert net'.target[v] == net.target[v];
        }
      }
    }
  }

  /* ---- Weight: what every rewrite lowers ---- */

  function PortWeight(p: Port): nat {
    match p
    case WirePort(_) => 1
    case Comb(_, _, _) => 2
    case Erasure(_) => 1
    case _ => 0
  }

  function TargetWeight(t: Target): nat {
    match t
    case AtWire(_) => 0
    case AtPort(p) => PortWeight(p)
  }

  function PairWeight(pair: Pair): nat {
    PortWeight(pair.0) + PortWeight(pair.1)
  }

  function PairsWeight(pairs: seq<Pair>): nat {
    if pairs == [] then 0 else PairsWeight(pairs[..|pairs| - 1]) + PairWeight(pairs[|pairs| - 1])
  }

  ghost function MapWeight(m: map<Wire, Port>): nat
    decreases |m|
  {
    if m == map[] then 0
    else
      var v :| v in m;
      PortWeight(m[v]) + MapWeight(m - {v})
  }

  ghost function NetWeight(net: Net): nat {
    PairsWeight(net.pairs) + MapWeight(Live(net))
  }

  lemma {:induction false} MapWeightRemove(m: map<Wire, Port>, v: Wire)
    requires v in m
    ensures MapWeight(m) == PortWeight(m[v]) + MapWeight(m - {v})
    decreases |m|
  {
    var u :| u in m && MapWeight(m) == PortWeight(m[u]) + MapWeight(m - {u});
    if u != v {
      MapWeightRemove(m - {u}, v);
      MapWeightRemove(m - {v}, u);
      assert m - {u} - {v} == m - {v} - {u};
    }
  }

  lemma NoPairsWeight()
    ensures PairsWeight([]) == 0
  {
  }

  lemma PairsWeightAdd(pairs: seq<Pair>, pair: Pair)
    ensures PairsWeight(pairs + [pair]) == PairsWeight(pairs) + PairWeight(pair)
  {
    assert (pairs + [pair])[..|pairs|] == pairs;
  }

  lemma {:induction false} PairsWeightAppend(a: seq<Pair>, b: seq<Pair>)
    ensures PairsWeight(a + b) == PairsWeight(a) + PairsWeight(b)
    decreases |b|
  {
    if b == [] {
      assert a + b == a;
    } else {
      var front, last := b[..|b| - 1], b[|b| - 1];
      PairsWeightAppend(a, front);
      assert a + b == (a + front) + [last];
      PairsWeightAdd(a + front, last);
    }
  }

  lemma {:induction false} PairsCountAppend(a: seq<Pair>, b: seq<Pair>, w: Wire)
    ensures PairsCount(a + b, w) == PairsCount(a, w) + PairsCount(b, w)
    decreases |b|
  {
    if b == [] {
      assert a + b == a;
    } else {
      var front, last := b[..|b| - 1], b[|b| - 1];
      PairsCountAppend(a, front, w);
      assert a + b == (a + front) + [last];
      PairsCountAdd(a + front, last, w);
    }
  }

  lemma RendezvousWeight(net: Net, w: Wire, p: Port)
    requires net.spent <= net.target.Keys && w !in net.spent
    ensures NetWeight(ConnectWireToPort(net, w, p)) == NetWeight(net) + PortWeight(p)
  {
    var net' := ConnectWireToPort(net, w, p);
    if w !in net.target {
      assert Live(net') == Live(net)[w := p];
      MapWeightRemove(Live(net'), w);
      assert Live(net') - {w} == Live(net);
    } else {
      PairsWeightAdd(net.pairs, (net.target[w], p));
      assert Live(net') == Live(net) - {w};
      MapWeightRemove(Live(net), w);
    }
  }

  // Joining two wires costs a wire port.
  lemma ConnectWeight(net: Net, l: Target, r: Target)
    requires net.spent <= net.target.Keys
    requires Meets(l, r).Some? ==> Meets(l, r).value !in net.spent
    ensures NetWeight(Connect(net, l, r))
         == NetWeight(net) + TargetWeight(l) + TargetWeight(r) + if l.AtWire? && r.AtWire? then 1 else 0
  {
    match (l, r)
    case (AtPort(p), AtPort(q)) =>
      PairsWeightAdd(net.pairs, (p, q));
      assert Live(Connect(net, l, r)) == Live(net);
    case (AtPort(p), AtWire(w)) => RendezvousWeight(net, w, p);
    case (AtWire(w), AtPort(p)) => RendezvousWeight(net, w, p);
    case (AtWire(v), AtWire(w)) => RendezvousWeight(net, v, WirePort(w));
  }

  /* ---- The rewrites ---- */

  predicate ForwardsOnly(target: map<Wire, Port>, w: Wire) {
    w in target && target[w].WirePort?
  }

  predicate Contractible(target: map<Wire, Port>, p: Port) {
    exists i :: 0 <= i < |Wires(p)| && ForwardsOnly(target, Wires(p)[i])
  }

  // The pairs that are reduced: by annihilation, by reading a wire port, or as
  // two erasures.
  predicate Reducible(target: map<Wire, Port>, l: Port, r: Port, level: nat) {
    || (l.Comb? && r.Comb? && l.tag == r.tag && level >= 1)
    || (l.WirePort? && (level >= 2 || l.wire in target))
    || (r.WirePort? && (level >= 2 || r.wire in target))
    || (l.Erasure? && r.Erasure? && level >= 3)
  }

  predicate Optimizable(target: map<Wire, Port>, pair: Pair, level: nat) {
    Reducible(target, pair.0, pair.1, level) || Contractible(target, pair.0) || Contractible(target, pair.1)
  }

  // What optimize looks for at a level, by the shapes of the two ports.
  ghost predicate AtRest(target: map<Wire, Port>, l: Port, r: Port, level: nat) {
    && (level >= 1 && l.Comb? && r.Comb? ==> l.tag != r.tag)
    && (level >= 2 ==> !l.WirePort? && !r.WirePort?)
    && (level >= 3 ==> !(l.Erasure? && r.Erasure?))
    && (l.WirePort? ==> l.wire !in target)
    && (r.WirePort? ==> r.wire !in target)
    && (forall k :: 0 <= k < |Wires(l)| && Wires(l)[k] in target ==> !target[Wires(l)[k]].WirePort?)
    && (forall k :: 0 <= k < |Wires(r)| && Wires(r)[k] in target ==> !target[Wires(r)[k]].WirePort?)
  }

  ghost predicate Rests(net: Net, level: nat) {
    forall i :: 0 <= i < |net.pairs| ==> AtRest(net.target, net.pairs[i].0, net.pairs[i].1, level)
  }

  lemma AtRestExactly(target: map<Wire, Port>, l: Port, r: Port, level: nat)
    ensures AtRest(target, l, r, level) <==> !Optimizable(target, (l, r), level)
  {
  }

  // Linear, with the pairs in `rest` still to be put back.
  ghost predicate LinearWith(net: Net, rest: seq<Pair>) {
    net.spent <= net.target.Keys
    && forall w: Wire {:trigger PairsCount(rest, w)} {:trigger NetCount(net, w)} ::
         LinearAt(net, w, PairsCount(rest, w))
  }

  ghost predicate Means(net: Net, rest: seq<Pair>, sigma: Wire -> Term) {
    Satisfies(net, sigma) && PairsHold(rest, sigma)
  }

  ghost predicate SameMeaning(net: Net, rest: seq<Pair>, net': Net, rest': seq<Pair>) {
    forall sigma: Wire -> Term {:trigger Means(net', rest', sigma)} ::
      Means(net, rest, sigma) <==> Means(net', rest', sigma)
  }

  function RunLinks(net: Net, links: seq<Link>): Net
    decreases |links|
  {
    if links == [] then net else RunLinks(Connect(net, links[0].0, links[0].1), links[1..])
  }

  lemma {:induction false} RunLinksMeans(net: Net, links: seq<Link>, sigma: Wire -> Term)
    ensures Satisfies(RunLinks(net, links), sigma) <==> (Satisfies(net, sigma) && LinksHold(links, sigma))
    decreases |links|
  {
    if links != [] {
      ConnectMeans(net, links[0].0, links[0].1, sigma);
      RunLinksMeans(Connect(net, links[0].0, links[0].1), links[1..], sigma);
      assert links == [links[0]] + links[1..];
    }
  }

  lemma {:induction false} RunLinksLinear(net: Net, links: seq<Link>, rest: seq<Pair>)
    requires net.spent <= net.target.Keys
    requires forall w: Wire {:trigger PairsCount(rest, w)} ::
               LinearAt(net, w, LinksCount(links, w) + PairsCount(rest, w))
    ensures LinearWith(RunLinks(net, links), rest)
    ensures NetWeight(RunLinks(net, links)) <= NetWeight(net) + LinksWeight(links)
    decreases |links|
  {
    if links != [] {
      var l, r := links[0].0, links[0].1;
      var met := Meets(l, r);
      if met.Some? {
        assert LinearAt(net, met.value, LinksCount(links, met.value) + PairsCount(rest, met.value));
        NoThirdEnd(net, l, r, LinksCount(links[1..], met.value) + PairsCount(rest, met.value));
      }
      ConnectWeight(net, l, r);
      forall w: Wire
        ensures LinearAt(Connect(net, l, r), w, LinksCount(links[1..], w) + PairsCount(rest, w))
        ensures Connect(net, l, r).spent <= Connect(net, l, r).target.Keys
      {
        assert LinearAt(net, w, LinksCount(links, w) + PairsCount(rest, w));
        ConnectLinear(net, l, r, w, LinksCount(links[1..], w) + PairsCount(rest, w));
      }
      RunLinksLinear(Connect(net, l, r), links[1..], rest);
    }
  }

  function LinkWeight(link: Link): nat {
    TargetWeight(link.0) + TargetWeight(link.1) + if link.0.AtWire? && link.1.AtWire? then 1 else 0
  }

  function LinksWeight(links: seq<Link>): nat {
    if links == [] then 0 else LinkWeight(links[0]) + LinksWeight(links[1..])
  }

  lemma TwoLinksWeight(a: Link, b: Link)
    ensures LinksWeight([a, b]) == LinkWeight(a) + LinkWeight(b)
  {
    assert [a, b][1..] == [b] && [b][1..] == [];
    assert LinksWeight([b]) == LinkWeight(b);
  }

  /* A reduction is the executor's own rule; it states the same equations as the
     pair and weighs less. */
  lemma ReductionMeans(target: map<Wire, Port>, l: Port, r: Port, level: nat, sigma: Wire -> Term)
    requires Reducible(target, l, r, level)
    ensures Interact(l, r, None, 0).Some?
    ensures LinksHold(Interact(l, r, None, 0).value, sigma) <==> Denotes(l, sigma) == Denotes(r, sigma)
    ensures LinksWeight(Interact(l, r, None, 0).value) < PairWeight((l, r))
  {
    var links := Interact(l, r, None, 0).value;
    if l.WirePort? || r.WirePort? {
      assert links[1..] == [] && links[0].0.AtWire?;
    } else if l.Comb? {
      TwoLinksWeight(links[0], links[1]);
      assert links == [links[0], links[1]];
      assert LinksHold(links, sigma) <==> (sigma(l.left) == sigma(r.left) && sigma(l.right) == sigma(r.right)) by {
        assert TargetDenotes(links[0].0, sigma) == sigma(l.left) && TargetDenotes(links[1].0, sigma) == sigma(l.right);
      }
    }
  }

  lemma ReductionCount(target: map<Wire, Port>, l: Port, r: Port, level: nat, w: Wire)
    requires Reducible(target, l, r, level)
    ensures LinksCount(Interact(l, r, None, 0).value, w) == PairCount((l, r), w)
  {
    var links := Interact(l, r, None, 0).value;
    if l.WirePort? || r.WirePort? {
      assert links[1..] == [];
    } else if l.Comb? {
      assert links == [links[0], links[1]];
      TwoLinks(links[0], links[1], w);
    }
  }

  lemma ReduceKeeps(net: Net, pair: Pair, rest: seq<Pair>, level: nat)
    requires Reducible(net.target, pair.0, pair.1, level) && LinearWith(net, [pair] + rest)
    ensures Interact(pair.0, pair.1, None, 0).Some?
    ensures var net' := RunLinks(net, Interact(pair.0, pair.1, None, 0).value);
            && LinearWith(net', rest)
            && SameMeaning(net, [pair] + rest, net', rest)
            && NetWeight(net') < NetWeight(net) + PairWeight(pair)
  {
    var links := Interact(pair.0, pair.1, None, 0).value;
    forall w: Wire ensures LinearAt(net, w, LinksCount(links, w) + PairsCount(rest, w)) {
      ReductionCount(net.target, pair.0, pair.1, level, w);
      FirstPairCount(pair, rest, w);
      assert LinearAt(net, w, PairsCount([pair] + rest, w));
    }
    RunLinksLinear(net, links, rest);
    ReductionMeans(net.target, pair.0, pair.1, level, w => Nothing);
    var net' := RunLinks(net, links);
    forall sigma: Wire -> Term ensures Means(net, [pair] + rest, sigma) <==> Means(net', rest, sigma) {
      ReductionMeans(net.target, pair.0, pair.1, level, sigma);
      RunLinksMeans(net, links, sigma);
      FirstPairHolds(pair, rest, sigma);
    }
  }

  lemma FirstPairCount(pair: Pair, rest: seq<Pair>, w: Wire)
    ensures PairsCount([pair] + rest, w) == PairCount(pair, w) + PairsCount(rest, w)
  {
    PairsCountAppend([pair], rest, w);
    assert [pair] == [] + [pair];
    PairsCountAdd([], pair, w);
  }

  lemma FirstPairWeight(pair: Pair, rest: seq<Pair>)
    ensures PairsWeight([pair] + rest) == PairWeight(pair) + PairsWeight(rest)
  {
    PairsWeightAppend([pair], rest);
    assert [pair] == [] + [pair];
    PairsWeightAdd([], pair);
  }

  lemma FirstPairHolds(pair: Pair, rest: seq<Pair>, sigma: Wire -> Term)
    ensures PairsHold([pair] + rest, sigma) <==>
            (Denotes(pair.0, sigma) == Denotes(pair.1, sigma) && PairsHold(rest, sigma))
  {
    var all := [pair] + rest;
    if PairsHold(all, sigma) {
      assert all[0] == pair;
      forall i | 0 <= i < |rest| ensures Denotes(rest[i].0, sigma) == Denotes(rest[i].1, sigma) {
        assert all[i + 1] == rest[i];
      }
    }
  }

  /* ---- Contracting a wire that only forwards ---- */

  function Contracted(p: Port, i: nat, w: Wire): Port
    requires i < |Wires(p)|
  {
    Rewired(p, Wires(p)[i := w])
  }

  lemma {:induction false} OccurrencesUpdate(ws: seq<Wire>, i: nat, v: Wire, w: Wire)
    requires i < |ws|
    ensures Occurrences(ws[i := v], w) + One(ws[i], w) == Occurrences(ws, w) + One(v, w)
    decreases |ws|
  {
    if i == 0 {
      assert ws[i := v][1..] == ws[1..];
    } else {
      OccurrencesUpdate(ws[1..], i - 1, v, w);
      assert ws[i := v][1..] == ws[1..][i - 1 := v];
    }
  }

  lemma ContractCount(p: Port, i: nat, v: Wire, w: Wire)
    requires i < |Wires(p)|
    ensures PortCount(Contracted(p, i, v), w) + One(Wires(p)[i], w) == PortCount(p, w) + One(v, w)
    ensures PortWeight(Contracted(p, i, v)) == PortWeight(p)
  {
    OccurrencesOfPort(p, w);
    OccurrencesOfPort(Contracted(p, i, v), w);
    OccurrencesUpdate(Wires(p), i, v, w);
  }

  lemma ContractDenotes(p: Port, i: nat, v: Wire, sigma: Wire -> Term)
    requires i < |Wires(p)| && sigma(Wires(p)[i]) == sigma(v)
    ensures Denotes(Contracted(p, i, v), sigma) == Denotes(p, sigma)
  {
    if p.Graft? {
      var ws, ws' := p.wires, p.wires[i := v];
      assert seq(|ws'|, j requires 0 <= j < |ws'| => sigma(ws'[j]))
             == seq(|ws|, j requires 0 <= j < |ws| => sigma(ws[j]));
    }
  }

  // One contraction, of the left or the right port of the pair in hand.
  function ContractPair(pair: Pair, left: bool, i: nat, w: Wire): Pair
    requires i < |Wires(if left then pair.0 else pair.1)|
  {
    if left then (Contracted(pair.0, i, w), pair.1) else (pair.0, Contracted(pair.1, i, w))
  }

  lemma ContractKeeps(net: Net, pair: Pair, rest: seq<Pair>, left: bool, i: nat)
    requires LinearWith(net, [pair] + rest)
    requires i < |Wires(if left then pair.0 else pair.1)|
    requires ForwardsOnly(net.target, Wires(if left then pair.0 else pair.1)[i])
    ensures var w := Wires(if left then pair.0 else pair.1)[i];
            var pair' := ContractPair(pair, left, i, net.target[w].wire);
            var net' := net.(spent := net.spent + {w});
            && LinearWith(net', [pair'] + rest)
            && SameMeaning(net, [pair] + rest, net', [pair'] + rest)
            && NetWeight(net') < NetWeight(net) && PairWeight(pair') == PairWeight(pair)
  {
    var p := if left then pair.0 else pair.1;
    var w := Wires(p)[i];
    var v := net.target[w].wire;
    var pair' := ContractPair(pair, left, i, v);
    var net' := net.(spent := net.spent + {w});
    ContractCount(p, i, v, w);
    FirstPairCount(pair, rest, w);
    assert LinearAt(net, w, PairsCount([pair] + rest, w));
    assert PortCount(p, w) >= 1 by {
      OccurrencesOfPort(p, w);
      OccurrencesUpdate(Wires(p), i, w + 1, w);
    }
    assert w !in net.spent;
    assert Live(net') == Live(net) - {w};
    MapWeightRemove(Live(net), w);
    forall u: Wire ensures LinearAt(net', u, PairsCount([pair'] + rest, u)) {
      ContractCount(p, i, v, u);
      FirstPairCount(pair, rest, u);
      FirstPairCount(pair', rest, u);
      MapCountRemove(Live(net), w, u);
      assert LinearAt(net, u, PairsCount([pair] + rest, u));
    }
    forall sigma: Wire -> Term
      ensures Means(net, [pair] + rest, sigma) <==> Means(net', [pair'] + rest, sigma)
    {
      FirstPairHolds(pair, rest, sigma);
      FirstPairHolds(pair', rest, sigma);
      if Satisfies(net, sigma) {
        assert sigma(w) == sigma(v);
        ContractDenotes(p, i, v, sigma);
      }
    }
  }

  /* ---- The connector and its optimizer ---- */

  class Connector {
    var target: map<Wire, Port>
    var activePairs: seq<Pair>
    ghost var spent: set<Wire>

    ghost function State(): Net
      reads this
    {
      Net(target, spent, activePairs)
    }

    constructor ()
      ensures State() == Net(map[], {}, [])
    {
      target, activePairs, spent := map[], [], {};
    }

    method ConnectPorts(l: Port, r: Port)
      modifies this
      ensures State() == Nets.ConnectPorts(old(State()), l, r)
    {
      activePairs := activePairs + [(l, r)];
    }

    method ConnectWireToPort(w: Wire, port: Port)
      modifies this
      ensures State() == Nets.ConnectWireToPort(old(State()), w, port)
    {
      if w !in target {
        target := target[w := port];
        return;
      }
      var met := target[w];
      spent := spent + {w};
      ConnectPorts(met, port);
    }

    method Connect(l: Target, r: Target)
      modifies this
      ensures State() == Nets.Connect(old(State()), l, r)
    {
      if l.AtPort? {
        if r.AtPort? {
          ConnectPorts(l.port, r.port);
        } else {
          ConnectWireToPort(r.wire, l.port);
        }
      } else if r.AtPort? {
        ConnectWireToPort(l.wire, r.port);
      } else {
        ConnectWireToPort(l.wire, WirePort(r.wire));
      }
    }

    method Execute(links: seq<Link>)
      modifies this
      ensures State() == RunLinks(old(State()), links)
    {
      var i := 0;
      while i < |links|
        invariant 0 <= i <= |links|
        invariant RunLinks(old(State()), links) == RunLinks(State(), links[i..])
      {
        assert links[i..][0] == links[i] && links[i..][1..] == links[i + 1..];
        Connect(links[i].0, links[i].1);
        i := i + 1;
      }
    }

    // `wires[i] = wire.target.wires[0]` for each forwarding wire of one port.
    method Contract(pair: Pair, left: bool, ghost rest: seq<Pair>) returns (pair': Pair, changed: bool)
      requires LinearWith(State(), [pair] + rest)
      modifies this`spent
      ensures LinearWith(State(), [pair'] + rest)
      ensures SameMeaning(old(State()), [pair] + rest, State(), [pair'] + rest)
      ensures changed ==> NetWeight(State()) < NetWeight(old(State()))
      ensures !changed ==> State() == old(State()) && pair' == pair
      ensures changed <==> Contractible(target, if left then pair.0 else pair.1)
      ensures PairWeight(pair') == PairWeight(pair)
      ensures left ==> pair'.1 == pair.1
      ensures !left ==> pair'.0 == pair.0
    {
      pair', changed := pair, false;
      ghost var ws := Wires(if left then pair.0 else pair.1);
      var i := 0;
      while i < |Wires(if left then pair'.0 else pair'.1)|
        invariant 0 <= i <= |Wires(if left then pair'.0 else pair'.1)|
        invariant LinearWith(State(), [pair'] + rest)
        invariant SameMeaning(old(State()), [pair] + rest, State(), [pair'] + rest)
        invariant changed ==> NetWeight(State()) < NetWeight(old(State()))
        invariant !changed ==> State() == old(State()) && pair' == pair
        invariant |Wires(if left then pair'.0 else pair'.1)| == |ws|
        invariant changed <==> exists j :: 0 <= j < i && ForwardsOnly(target, ws[j])
        invariant PairWeight(pair') == PairWeight(pair)
        invariant left ==> pair'.1 == pair.1
        invariant !left ==> pair'.0 == pair.0
        decreases |Wires(if left then pair'.0 else pair'.1)| - i
      {
        var wire := Wires(if left then pair'.0 else pair'.1)[i];
        if wire in target && target[wire].WirePort? {
          ContractKeeps(State(), pair', rest, left, i);
          pair' := ContractPair(pair', left, i, target[wire].wire);
          spent := spent + {wire};
          changed := true;
        }
        i := i + 1;
      }
    }

    /* One pair of a pass: reduced, or put back contracted. */
    method OptimizePair(pair: Pair, level: nat, ghost rest: seq<Pair>) returns (changed: bool)
      requires LinearWith(State(), [pair] + rest)
      modifies this
      ensures LinearWith(State(), rest)
      ensures SameMeaning(old(State()), [pair] + rest, State(), rest)
      ensures changed ==> NetWeight(State()) < NetWeight(old(State())) + PairWeight(pair)
      ensures !changed ==> State() == old(State()).(pairs := old(activePairs) + [pair])
      ensures !changed ==> NetWeight(State()) == NetWeight(old(State())) + PairWeight(pair)
      ensures changed <==> !AtRest(old(target), pair.0, pair.1, level)
    {
      var (l, r) := pair;
      AtRestExactly(target, l, r, level);
      if l.Comb? && r.Comb? && l.tag == r.tag && level >= 1 {
        changed := true;
        ReduceKeeps(State(), pair, rest, level);
        Execute(CommuteOrAnnihilate(l, r, 0));
      } else if l.WirePort? && (level >= 2 || l.wire in target) {
        changed := true;
        ReduceKeeps(State(), pair, rest, level);
        Execute([(AtWire(l.wire), AtPort(r))]);
      } else if r.WirePort? && (level >= 2 || r.wire in target) {
        changed := true;
        ReduceKeepsRight(State(), pair, rest, level);
        Execute([(AtWire(r.wire), AtPort(l))]);
      } else if l.Erasure? && r.Erasure? && level >= 3 {
        changed := true;
        ReduceKeeps(State(), pair, rest, level);
        Execute(Erase(Wires(l)) + Erase(Wires(r)));
      } else {
        var pair', leftChanged := Contract(pair, true, rest);
        var pair'', rightChanged := Contract(pair', false, rest);
        changed := leftChanged || rightChanged;
        PutBackKeeps(State(), pair'', rest);
        ConnectPorts(pair''.0, pair''.1);
      }
    }

    // One pass over a copy of the active pairs.
    method Pass(level: nat) returns (potential: bool)
      requires LinearWith(State(), [])
      modifies this
      ensures LinearWith(State(), [])
      ensures SameMeaning(old(State()), [], State(), [])
      ensures potential ==> NetWeight(State()) < NetWeight(old(State()))
      ensures !potential ==> State() == old(State())
      ensures !potential <==> Rests(old(State()), level)
    {
      hide LinearWith, SameMeaning, NetWeight, PairsWeight, AtRest;
      ghost var start := State();
      potential := false;
      var source := activePairs;
      activePairs := [];
      TakeAll(start);
      var i := 0;
      while i < |source|
        invariant 0 <= i <= |source|
        invariant LinearWith(State(), source[i..])
        invariant SameMeaning(start, [], State(), source[i..])
        invariant potential ==> NetWeight(State()) + PairsWeight(source[i..]) < NetWeight(start)
        invariant !potential ==> NetWeight(State()) + PairsWeight(source[i..]) == NetWeight(start)
        invariant !potential ==> State() == start.(pairs := source[..i])
        invariant !potential <==> forall j :: 0 <= j < i ==> AtRest(start.target, source[j].0, source[j].1, level)
      {
        ghost var rest := source[i + 1..];
        assert source[i..] == [source[i]] + rest;
        FirstPairWeight(source[i], rest);
        ghost var before := State();
        var changed := OptimizePair(source[i], level, rest);
        SameMeaningChains(start, [], before, source[i..], State(), rest);
        assert source[..i] + [source[i]] == source[..i + 1];
        potential := potential || changed;
        i := i + 1;
      }
      assert source[i..] == [] && source[..i] == source;
      NoPairsWeight();
    }

    /** optimize: passes over the active pairs until one changes nothing. */
    method Optimize(level: nat)
      requires LinearWith(State(), [])
      modifies this
      ensures LinearWith(State(), [])
      ensures SameMeaning(old(State()), [], State(), [])
      ensures NetWeight(State()) <= NetWeight(old(State()))
      ensures Rests(State(), level)
      ensures State() == old(State()) <==> Rests(old(State()), level)
    {
      hide LinearWith, NetWeight, AtRest;
      var potential := true;
      while potential
        invariant LinearWith(State(), [])
        invariant SameMeaning(old(State()), [], State(), [])
        invariant NetWeight(State()) <= NetWeight(old(State()))
        invariant !potential ==> Rests(State(), level)
        invariant State() == old(State())
                  || (NetWeight(State()) < NetWeight(old(State())) && !Rests(old(State()), level))
        decreases NetWeight(State()), potential
      {
        ghost var before := State();
        potential := Pass(level);
        SameMeaningChains(old(State()), [], before, [], State(), []);
      }
    }
  }

  lemma SameMeaningChains(a: Net, ra: seq<Pair>, b: Net, rb: seq<Pair>, c: Net, rc: seq<Pair>)
    requires SameMeaning(a, ra, b, rb) && SameMeaning(b, rb, c, rc)
    ensures SameMeaning(a, ra, c, rc)
  {
    forall sigma: Wire -> Term ensures Means(a, ra, sigma) <==> Means(c, rc, sigma) {
      assert Means(a, ra, sigma) <==> Means(b, rb, sigma);
    }
  }

  lemma ReduceKeepsRight(net: Net, pair: Pair, rest: seq<Pair>, level: nat)
    requires Reducible(net.target, pair.0, pair.1, level) && LinearWith(net, [pair] + rest) && pair.1.WirePort?
    ensures var net' := RunLinks(net, [(AtWire(pair.1.wire), AtPort(pair.0))]);
            && LinearWith(net', rest)
            && SameMeaning(net, [pair] + rest, net', rest)
            && NetWeight(net') < NetWeight(net) + PairWeight(pair)
  {
    var links: seq<Link> := [(AtWire(pair.1.wire), AtPort(pair.0))];
    assert links[1..] == [];
    forall w: Wire ensures LinearAt(net, w, LinksCount(links, w) + PairsCount(rest, w)) {
      FirstPairCount(pair, rest, w);
      assert LinearAt(net, w, PairsCount([pair] + rest, w));
    }
    RunLinksLinear(net, links, rest);
    var net' := RunLinks(net, links);
    forall sigma: Wire -> Term ensures Means(net, [pair] + rest, sigma) <==> Means(net', rest, sigma) {
      RunLinksMeans(net, links, sigma);
      FirstPairHolds(pair, rest, sigma);
    }
  }

  lemma PutBackKeeps(net: Net, pair: Pair, rest: seq<Pair>)
    requires LinearWith(net, [pair] + rest)
    ensures var net' := Nets.ConnectPorts(net, pair.0, pair.1);
            && LinearWith(net', rest)
            && SameMeaning(net, [pair] + rest, net', rest)
            && NetWeight(net') == NetWeight(net) + PairWeight(pair)
  {
    var net' := Nets.ConnectPorts(net, pair.0, pair.1);
    assert Live(net') == Live(net);
    PairsWeightAdd(net.pairs, pair);
    forall w: Wire ensures LinearAt(net', w, PairsCount(rest, w)) {
      FirstPairCount(pair, rest, w);
      PairsCountAdd(net.pairs, pair, w);
      assert LinearAt(net, w, PairsCount([pair] + rest, w));
    }
    forall sigma: Wire -> Term ensures Means(net, [pair] + rest, sigma) <==> Means(net', rest, sigma) {
      FirstPairHolds(pair, rest, sigma);
      PairMeans(net.pairs, pair, sigma);
    }
  }

  // At the start of a pass every pair is taken out.
  lemma TakeAll(net: Net)
    requires LinearWith(net, [])
    ensures LinearWith(net.(pairs := []), net.pairs)
    ensures SameMeaning(net, [], net.(pairs := []), net.pairs)
    ensures NetWeight(net.(pairs := [])) + PairsWeight(net.pairs) == NetWeight(net)
  {
    var net' := net.(pairs := []);
    assert Live(net') == Live(net);
    forall w: Wire ensures LinearAt(net', w, PairsCount(net.pairs, w)) {
      assert LinearAt(net, w, PairsCount([], w));
    }
  }
}
