/** Any number of workers executing interactions: each rule starts on a pair and
    then issues its connects one at a time, interleaved with everybody else's.
    A Graft of a template in the library is expanded by copying it. */
module Machine {
  import opened Options
  import opened Nets
  import opened Interactions
  import opened Templates

  // `inflight` holds, per started interaction, the connects still to come.
  datatype System = System(net: Net, inflight: seq<seq<Link>>, next: Wire)

  datatype Move =
    | Start(pair: nat)
    | Act(worker: nat)
    | Expand(graft: nat, m: map<Wire, Wire>, copied: map<Wire, Port>, pairs: seq<Pair>, next: Wire)

  type Library = map<nat, Template>

  // The merge rule reads its operand wire without taking the lock.
  function Observed(net: Net, l: Port, r: Port): Option<Port> {
    var agent := if l.ValuePort? then r else l;
    if agent.Merge? && agent.operand in net.target then Some(net.target[agent.operand]) else None
  }

  // The Graft of a pair, and what it faces.
  function GraftOf(pair: Pair): Pair {
    if pair.0.Graft? then pair else (pair.1, pair.0)
  }

  // An expansion facing an erasure erases its output; else the copied pairs are
  // connected, then the two interfaces.
  function ExpansionLinks(t: Template, graft: Port, port: Port, m: map<Wire, Wire>, pairs: seq<Pair>): seq<Link>
    requires graft.Graft? && |graft.wires| == 1 && t.input in m && t.output in m
  {
    if port.Erasure? then [(AtPort(port), AtWire(graft.wires[0]))]
    else PairLinks(pairs) + [(AtWire(m[t.input]), AtPort(port)), (AtWire(m[t.output]), AtWire(graft.wires[0]))]
  }

  function PairLinks(pairs: seq<Pair>): seq<Link> {
    if pairs == [] then []
    else PairLinks(pairs[..|pairs| - 1]) + [(AtPort(pairs[|pairs| - 1].0), AtPort(pairs[|pairs| - 1].1))]
  }

  ghost predicate Enabled(lib: Library, s: System, move: Move) {
    match move
    case Start(i) =>
      i < |s.net.pairs|
      && Interact(s.net.pairs[i].0, s.net.pairs[i].1,
                  Observed(s.net, s.net.pairs[i].0, s.net.pairs[i].1), s.next).Some?
    case Act(k) => k < |s.inflight| && s.inflight[k] != []
    case Expand(i, m, copied, pairs, next) =>
      i < |s.net.pairs|
      && var (graft, port) := GraftOf(s.net.pairs[i]);
      && graft.Graft? && !port.Graft? && !port.WirePort? && |graft.wires| == 1 && graft.agent in lib
      && Copy(lib[graft.agent], s.next, m, copied, pairs)
      && next >= s.next && forall w :: w in m ==> m[w] < next
  }

  ghost function Step(lib: Library, s: System, move: Move): System
    requires Enabled(lib, s, move)
  {
    match move
    case Start(i) =>
      var (l, r) := s.net.pairs[i];
      var links := Interact(l, r, Observed(s.net, l, r), s.next).value;
      System(s.net.(pairs := Without(s.net.pairs, i)), s.inflight + [links], s.next + FRESH)
    case Act(k) =>
      var link := s.inflight[k][0];
      System(Connect(s.net, link.0, link.1), s.inflight[k := s.inflight[k][1..]], s.next)
    case Expand(i, m, copied, pairs, next) =>
      var (graft, port) := GraftOf(s.net.pairs[i]);
      var links := ExpansionLinks(lib[graft.agent], graft, port, m, pairs);
      var target := if port.Erasure? then s.net.target else s.net.target + copied;
      System(Net(target, s.net.spent, Without(s.net.pairs, i)), s.inflight + [links], next)
  }

  function InflightCount(inflight: seq<seq<Link>>, w: Wire): nat {
    if inflight == [] then 0
    else InflightCount(inflight[..|inflight| - 1], w) + LinksCount(inflight[|inflight| - 1], w)
  }

  ghost predicate Linear(s: System) {
    && s.net.spent <= s.net.target.Keys
    && (forall w :: w in s.net.target ==> w < s.next)
    && (forall w: Wire {:trigger LinearAt(s.net, w, InflightCount(s.inflight, w))} ::
          LinearAt(s.net, w, InflightCount(s.inflight, w))
          && (w >= s.next ==> NetCount(s.net, w) + InflightCount(s.inflight, w) == 0))
  }

  lemma InflightAdd(inflight: seq<seq<Link>>, links: seq<Link>, w: Wire)
    ensures InflightCount(inflight + [links], w) == InflightCount(inflight, w) + LinksCount(links, w)
  {
    assert (inflight + [links])[..|inflight|] == inflight;
  }

  lemma {:induction false} InflightUpdate(inflight: seq<seq<Link>>, k: nat, links: seq<Link>, w: Wire)
    requires k < |inflight|
    ensures InflightCount(inflight[k := links], w) + LinksCount(inflight[k], w)
         == InflightCount(inflight, w) + LinksCount(links, w)
    decreases |inflight|
  {
    var last := |inflight| - 1;
    var front := inflight[..last];
    if k == last {
      assert inflight[k := links][..last] == front;
    } else {
      InflightUpdate(front, k, links, w);
      assert inflight[k := links][..last] == front[k := links];
    }
  }

  lemma StartKeepsLinear(lib: Library, s: System, i: nat)
    requires Linear(s) && Enabled(lib, s, Start(i))
    ensures Linear(Step(lib, s, Start(i)))
  {
    var s' := Step(lib, s, Start(i));
    var (l, r) := s.net.pairs[i];
    var seen := Observed(s.net, l, r);
    var links := Interact(l, r, seen, s.next).value;
    assert Live(s'.net) == Live(s.net);
    forall w: Wire
      ensures LinearAt(s'.net, w, InflightCount(s'.inflight, w))
              && (w >= s'.next ==> NetCount(s'.net, w) + InflightCount(s'.inflight, w) == 0)
    {
      assert LinearAt(s.net, w, InflightCount(s.inflight, w));
      PairsCountRemove(s.net.pairs, i, w);
      RulesConserve(l, r, seen, s.next, w);
      InflightAdd(s.inflight, links, w);
    }
  }

  lemma ActKeepsLinear(lib: Library, s: System, k: nat)
    requires Linear(s) && Enabled(lib, s, Act(k))
    ensures Linear(Step(lib, s, Act(k)))
    ensures var link := s.inflight[k][0];
            Meets(link.0, link.1).Some? ==> Meets(link.0, link.1).value !in s.net.spent
  {
    var s' := Step(lib, s, Act(k));
    var link, rest := s.inflight[k][0], s.inflight[k][1..];
    var met := Meets(link.0, link.1);
    if met.Some? {
      var v := met.value;
      InflightUpdate(s.inflight, k, rest, v);
      assert LinearAt(s.net, v, InflightCount(s.inflight, v));
      NoThirdEnd(s.net, link.0, link.1, InflightCount(s'.inflight, v));
      assert v < s.next;
    }
    forall w: Wire
      ensures LinearAt(s'.net, w, InflightCount(s'.inflight, w))
              && (w >= s'.next ==> NetCount(s'.net, w) + InflightCount(s'.inflight, w) == 0)
    {
      assert LinearAt(s.net, w, InflightCount(s.inflight, w));
      InflightUpdate(s.inflight, k, rest, w);
      ConnectLinear(s.net, link.0, link.1, w, InflightCount(s'.inflight, w));
      ConnectCount(s.net, link.0, link.1, w);
    }
  }

  lemma {:induction false} PairLinksCount(pairs: seq<Pair>, w: Wire)
    ensures LinksCount(PairLinks(pairs), w) == PairsCount(pairs, w)
    decreases |pairs|
  {
    if pairs != [] {
      var front, last := pairs[..|pairs| - 1], pairs[|pairs| - 1];
      PairLinksCount(front, w);
      LinksCountAppend(PairLinks(front), [(AtPort(last.0), AtPort(last.1))], w);
      assert [(AtPort(last.0), AtPort(last.1))][1..] == [];
    }
  }

  lemma ExpansionCount(t: Template, graft: Port, port: Port, m: map<Wire, Wire>, pairs: seq<Pair>, w: Wire)
    requires graft.Graft? && |graft.wires| == 1 && t.input in m && t.output in m
    ensures var count := LinksCount(ExpansionLinks(t, graft, port, m, pairs), w);
            count == PortCount(graft, w) + PortCount(port, w)
                     + if port.Erasure? then 0 else PairsCount(pairs, w) + One(m[t.input], w) + One(m[t.output], w)
  {
    assert graft.wires == [graft.wires[0]];
    OneOccurs(graft.wires[0], w);
    if port.Erasure? {
      assert ExpansionLinks(t, graft, port, m, pairs)[1..] == [];
    } else {
      var a, b := (AtWire(m[t.input]), AtPort(port)), (AtWire(m[t.output]), AtWire(graft.wires[0]));
      PairLinksCount(pairs, w);
      LinksCountAppend(PairLinks(pairs), [a, b], w);
      TwoLinks(a, b, w);
    }
  }

  lemma ExpandKeepsLinear(lib: Library, s: System, move: Move)
    requires forall a :: a in lib ==> LinearTemplate(lib[a])
    requires Linear(s) && move.Expand? && Enabled(lib, s, move)
    ensures Linear(Step(lib, s, move))
  {
    hide LinearTemplate, LinearAt, NetCount, InflightCount, ExpansionLinks;
    var s' := Step(lib, s, move);
    var port := GraftOf(s.net.pairs[move.graft]).1;
    var added: map<Wire, Port> := if port.Erasure? then map[] else move.copied;
    forall f | f in added ensures f !in s.net.target && s.next <= f < move.next {
      assert f in move.m.Values;
    }
    assert Live(s'.net) == Live(s.net) + added;
    forall w: Wire
      ensures LinearAt(s'.net, w, InflightCount(s'.inflight, w))
              && (w >= s'.next ==> NetCount(s'.net, w) + InflightCount(s'.inflight, w) == 0)
    {
      ExpandAt(lib, s, move, added, w);
    }
  }

  lemma ExpandAt(lib: Library, s: System, move: Move, added: map<Wire, Port>, w: Wire)
    requires forall a :: a in lib ==> LinearTemplate(lib[a])
    requires Linear(s) && move.Expand? && Enabled(lib, s, move)
    requires added.Keys !! s.net.target.Keys && Live(Step(lib, s, move).net) == Live(s.net) + added
    requires added == if GraftOf(s.net.pairs[move.graft]).1.Erasure? then map[] else move.copied
    ensures var s' := Step(lib, s, move);
            && LinearAt(s'.net, w, InflightCount(s'.inflight, w))
            && (w >= s'.next ==> NetCount(s'.net, w) + InflightCount(s'.inflight, w) == 0)
  {
    var t := lib[GraftOf(s.net.pairs[move.graft]).0.agent];
    ExpandCount(lib, s, move, added, w);
    CopyIsLinear(t, s.next, move.m, move.copied, move.pairs, w);
    assert LinearAt(s.net, w, InflightCount(s.inflight, w));
    assert w in move.m.Values ==> s.next <= w < move.next;
  }

  // The references to w grow by those of the copy and its interfaces.
  lemma ExpandCount(lib: Library, s: System, move: Move, added: map<Wire, Port>, w: Wire)
    requires move.Expand? && Enabled(lib, s, move)
    requires added.Keys !! Live(s.net).Keys && Live(Step(lib, s, move).net) == Live(s.net) + added
    ensures var s' := Step(lib, s, move);
            var (graft, port) := GraftOf(s.net.pairs[move.graft]);
            var t := lib[graft.agent];
            NetCount(s'.net, w) + InflightCount(s'.inflight, w)
            == NetCount(s.net, w) + InflightCount(s.inflight, w) + MapCount(added, w)
               + if port.Erasure? then 0
                 else PairsCount(move.pairs, w) + One(move.m[t.input], w) + One(move.m[t.output], w)
  {
    var Expand(i, m, copied, pairs, next) := move;
    var (graft, port) := GraftOf(s.net.pairs[i]);
    PairsCountRemove(s.net.pairs, i, w);
    ExpansionCount(lib[graft.agent], graft, port, m, pairs, w);
    InflightAdd(s.inflight, ExpansionLinks(lib[graft.agent], graft, port, m, pairs), w);
    MapCountUnion(Live(s.net), added, w);
  }

  /** Every Graft of a linear template can be expanded: the copier makes the move. */
  method ExecuteGraft(lib: Library, s: System, i: nat) returns (move: Move)
    requires i < |s.net.pairs|
    requires var (graft, port) := GraftOf(s.net.pairs[i]);
             && graft.Graft? && !port.Graft? && !port.WirePort? && |graft.wires| == 1
             && graft.agent in lib && LinearTemplate(lib[graft.agent])
    ensures move.Expand? && move.graft == i && Enabled(lib, s, move)
  {
    var t := lib[GraftOf(s.net.pairs[i]).0.agent];
    var m, copied, pairs, n := CopyTemplate(t, s.next);
    assert s.next <= m[t.input] < n;
    move := Expand(i, m, copied, pairs, n);
  }

  /* ---- Runs ---- */

  ghost predicate Run(lib: Library, states: seq<System>, moves: seq<Move>) {
    |states| == |moves| + 1
    && forall i :: 0 <= i < |moves| ==>
         Enabled(lib, states[i], moves[i]) && states[i + 1] == Step(lib, states[i], moves[i])
  }

  /** Through every sequence of steps, in any order, the net stays linear. */
  lemma {:induction false} RunsStayLinear(lib: Library, states: seq<System>, moves: seq<Move>, i: nat)
    requires forall a :: a in lib ==> LinearTemplate(lib[a])
    requires Run(lib, states, moves) && Linear(states[0]) && i < |states|
    ensures Linear(states[i])
    decreases i
  {
    if i > 0 {
      RunsStayLinear(lib, states, moves, i - 1);
      assert Enabled(lib, states[i - 1], moves[i - 1]);
      match moves[i - 1]
      case Start(p) => StartKeepsLinear(lib, states[i - 1], p);
      case Act(k) => ActKeepsLinear(lib, states[i - 1], k);
      case Expand(_, _, _, _, _) => ExpandKeepsLinear(lib, states[i - 1], moves[i - 1]);
    }
  }

  /** Hence no step of any run connects to a wire that already had two ends. */
  lemma NoWireMeetsAThirdEnd(lib: Library, states: seq<System>, moves: seq<Move>, i: nat)
    requires forall a :: a in lib ==> LinearTemplate(lib[a])
    requires Run(lib, states, moves) && Linear(states[0]) && i < |moves| && moves[i].Act?
    ensures var link := states[i].inflight[moves[i].worker][0];
            Meets(link.0, link.1).Some? ==> Meets(link.0, link.1).value !in states[i].net.spent
  {
    RunsStayLinear(lib, states, moves, i);
    assert Enabled(lib, states[i], moves[i]);
    ActKeepsLinear(lib, states[i], moves[i].worker);
  }

  // No worker can do anything.
  ghost predicate Quiescent(lib: Library, s: System) {
    forall move :: !Enabled(lib, s, move)
  }

  /* ---- Wires that leave the net ---- */

  // w has one end inside the net and none outside.
  ghost predicate OneEnd(s: System, w: Wire) {
    && w < s.next && w !in s.net.spent
    && NetCount(s.net, w) + InflightCount(s.inflight, w) <= if w in s.net.target then 0 else 1
  }

  lemma StartKeepsEnd(lib: Library, s: System, i: nat, w: Wire)
    requires OneEnd(s, w) && Enabled(lib, s, Start(i))
    ensures OneEnd(Step(lib, s, Start(i)), w)
  {
    var (l, r) := s.net.pairs[i];
    var seen := Observed(s.net, l, r);
    PairsCountRemove(s.net.pairs, i, w);
    RulesConserve(l, r, seen, s.next, w);
    InflightAdd(s.inflight, Interact(l, r, seen, s.next).value, w);
    assert Live(Step(lib, s, Start(i)).net) == Live(s.net);
  }

  lemma ActKeepsEnd(lib: Library, s: System, k: nat, w: Wire)
    requires Linear(s) && OneEnd(s, w) && Enabled(lib, s, Act(k))
    ensures OneEnd(Step(lib, s, Act(k)), w)
  {
    var link := s.inflight[k][0];
    ActKeepsLinear(lib, s, k);
    InflightUpdate(s.inflight, k, s.inflight[k][1..], w);
    ConnectCount(s.net, link.0, link.1, w);
    ConnectAllowed(s.net, link.0, link.1, w);
  }

  /* ---- Reachable set wires form a forest ---- */

  // A chain of set wires hanging off an active pair or a pending connect.
  ghost predicate Chain(s: System, p: seq<Wire>) {
    && p != []
    && PairsCount(s.net.pairs, p[0]) + InflightCount(s.inflight, p[0]) >= 1
    && (forall i :: 0 <= i < |p| ==> p[i] in Live(s.net))
    && (forall i :: 0 < i < |p| ==> PortCount(Live(s.net)[p[i - 1]], p[i]) >= 1)
  }

  lemma TwoParents(m: map<Wire, Port>, a: Wire, b: Wire, w: Wire)
    requires a in m && b in m && a != b
    ensures MapCount(m, w) >= PortCount(m[a], w) + PortCount(m[b], w)
  {
    MapCountRemove(m, a, w);
    MapCountRemove(m - {a}, b, w);
  }

  /** No chain ever comes back to a wire: each set wire has one parent. */
  lemma {:induction false} ChainsDoNotRevisit(s: System, p: seq<Wire>, i: nat, j: nat)
    requires Linear(s) && Chain(s, p) && i < j < |p|
    ensures p[i] != p[j]
    decreases i
  {
    var m := Live(s.net);
    if p[i] == p[j] {
      var w := p[i];
      assert LinearAt(s.net, w, InflightCount(s.inflight, w));
      assert NetCount(s.net, w) + InflightCount(s.inflight, w) <= 1;
      if i == 0 {
        MapCountRemove(m, p[j - 1], w);
      } else {
        ChainsDoNotRevisit(s, p, i - 1, j - 1);
        TwoParents(m, p[i - 1], p[j - 1], w);
      }
    }
  }
}
