/** Weighing the ports of a running net: what one step adds to a sum over all of
    them, and what it takes away. */
module Tallies {
  import opened Options
  import opened Nets
  import opened Interactions
  import opened Machine

  // `port` is what a port weighs wherever it is, `end` what it weighs on top of
  // that as one end of a wire.
  datatype Weight = Weight(port: Port -> nat, end: (Wire, Port) -> nat)

  function PairWeight(wt: Weight, pair: Pair): nat {
    wt.port(pair.0) + wt.port(pair.1)
  }

  function EndWeight(wt: Weight, w: Wire, p: Port): nat {
    wt.port(p) + wt.end(w, p)
  }

  // The port that a connect brings to the wire it meets.
  function Arriving(link: Link): Port
    requires Meets(link.0, link.1).Some?
  {
    match link
    case (AtPort(p), _) => p
    case (AtWire(_), AtPort(p)) => p
    case (AtWire(_), AtWire(w)) => WirePort(w)
  }

  function LinkWeight(wt: Weight, link: Link): nat {
    match Meets(link.0, link.1)
    case Some(w) => EndWeight(wt, w, Arriving(link))
    case None => PairWeight(wt, (link.0.port, link.1.port))
  }

  function PairsTally(wt: Weight, pairs: seq<Pair>): nat {
    if pairs == [] then 0 else PairsTally(wt, pairs[..|pairs| - 1]) + PairWeight(wt, pairs[|pairs| - 1])
  }

  ghost function MapTally(wt: Weight, m: map<Wire, Port>): nat
    decreases |m|
  {
    if m == map[] then 0
    else
      var v :| v in m;
      EndWeight(wt, v, m[v]) + MapTally(wt, m - {v})
  }

  function LinksTally(wt: Weight, links: seq<Link>): nat {
    if links == [] then 0 else LinkWeight(wt, links[0]) + LinksTally(wt, links[1..])
  }

  function InflightTally(wt: Weight, inflight: seq<seq<Link>>): nat {
    if inflight == [] then 0
    else InflightTally(wt, inflight[..|inflight| - 1]) + LinksTally(wt, inflight[|inflight| - 1])
  }

  ghost function NetTally(wt: Weight, net: Net): nat {
    PairsTally(wt, net.pairs) + MapTally(wt, Live(net))
  }

  ghost function Tally(wt: Weight, s: System): nat {
    NetTally(wt, s.net) + InflightTally(wt, s.inflight)
  }

  /* ---- Adding and removing ---- */

  lemma PairsTallyAdd(wt: Weight, pairs: seq<Pair>, pair: Pair)
    ensures PairsTally(wt, pairs + [pair]) == PairsTally(wt, pairs) + PairWeight(wt, pair)
  {
    assert (pairs + [pair])[..|pairs|] == pairs;
  }

  lemma {:induction false} PairsTallyRemove(wt: Weight, pairs: seq<Pair>, i: nat)
    requires i < |pairs|
    ensures PairsTally(wt, pairs) == PairsTally(wt, Without(pairs, i)) + PairWeight(wt, pairs[i])
    decreases |pairs|
  {
    var last := |pairs| - 1;
    var front := pairs[..last];
    if i == last {
      assert Without(pairs, i) == front;
    } else {
      PairsTallyRemove(wt, front, i);
      assert Without(pairs, i) == Without(front, i) + [pairs[last]];
      PairsTallyAdd(wt, Without(front, i), pairs[last]);
    }
  }

  lemma {:induction false} MapTallyRemove(wt: Weight, m: map<Wire, Port>, v: Wire)
    requires v in m
    ensures MapTally(wt, m) == EndWeight(wt, v, m[v]) + MapTally(wt, m - {v})
    decreases |m|
  {
    var u :| u in m && MapTally(wt, m) == EndWeight(wt, u, m[u]) + MapTally(wt, m - {u});
    if u != v {
      MapTallyRemove(wt, m - {u}, v);
      MapTallyRemove(wt, m - {v}, u);
      assert m - {u} - {v} == m - {v} - {u};
    }
  }

  lemma MapTallyAdd(wt: Weight, m: map<Wire, Port>, v: Wire, p: Port)
    requires v !in m
    ensures MapTally(wt, m[v := p]) == EndWeight(wt, v, p) + MapTally(wt, m)
  {
    MapTallyRemove(wt, m[v := p], v);
    assert m[v := p] - {v} == m;
  }

  lemma InflightTallyAdd(wt: Weight, inflight: seq<seq<Link>>, links: seq<Link>)
    ensures InflightTally(wt, inflight + [links]) == InflightTally(wt, inflight) + LinksTally(wt, links)
  {
    assert (inflight + [links])[..|inflight|] == inflight;
  }

  lemma {:induction false} InflightTallyUpdate(wt: Weight, inflight: seq<seq<Link>>, k: nat, links: seq<Link>)
    requires k < |inflight|
    ensures InflightTally(wt, inflight[k := links]) + LinksTally(wt, inflight[k])
         == InflightTally(wt, inflight) + LinksTally(wt, links)
    decreases |inflight|
  {
    var last := |inflight| - 1;
    var front := inflight[..last];
    if k == last {
      assert inflight[k := links][..last] == front;
    } else {
      InflightTallyUpdate(wt, front, k, links);
      assert inflight[k := links][..last] == front[k := links];
    }
  }

  lemma TwoLinksTally(wt: Weight, a: Link, b: Link)
    ensures LinksTally(wt, [a, b]) == LinkWeight(wt, a) + LinkWeight(wt, b)
  {
    assert [a, b][1..] == [b] && [b][1..] == [];
    assert LinksTally(wt, [b]) == LinkWeight(wt, b);
  }

  lemma {:induction false} LinksTallyAppend(wt: Weight, a: seq<Link>, b: seq<Link>)
    ensures LinksTally(wt, a + b) == LinksTally(wt, a) + LinksTally(wt, b)
    decreases |a|
  {
    if a == [] {
      assert a + b == b;
    } else {
      assert (a + b)[1..] == a[1..] + b;
      LinksTallyAppend(wt, a[1..], b);
    }
  }

  /* ---- Steps ---- */

  // What the two ends of a wire weighed there is lost when they meet.
  function LostAt(wt: Weight, net: Net, link: Link): nat {
    match Meets(link.0, link.1)
    case Some(w) => if w in net.target then wt.end(w, net.target[w]) + wt.end(w, Arriving(link)) else 0
    case None => 0
  }

  lemma ConnectTally(wt: Weight, net: Net, link: Link)
    requires net.spent <= net.target.Keys
    requires Meets(link.0, link.1).Some? ==> Meets(link.0, link.1).value !in net.spent
    ensures NetTally(wt, Connect(net, link.0, link.1)) + LostAt(wt, net, link)
            == NetTally(wt, net) + LinkWeight(wt, link)
  {
    match Meets(link.0, link.1)
    case Some(w) => RendezvousTally(wt, net, w, Arriving(link));
    case None =>
      PairsTallyAdd(wt, net.pairs, (link.0.port, link.1.port));
      assert Live(Connect(net, link.0, link.1)) == Live(net);
  }

  lemma RendezvousTally(wt: Weight, net: Net, w: Wire, p: Port)
    requires net.spent <= net.target.Keys && w !in net.spent
    ensures NetTally(wt, ConnectWireToPort(net, w, p))
            + (if w in net.target then wt.end(w, net.target[w]) + wt.end(w, p) else 0)
         == NetTally(wt, net) + EndWeight(wt, w, p)
  {
    var net' := ConnectWireToPort(net, w, p);
    if w !in net.target {
      assert Live(net') == Live(net)[w := p];
      MapTallyAdd(wt, Live(net), w, p);
    } else {
      PairsTallyAdd(wt, net.pairs, (net.target[w], p));
      assert Live(net') == Live(net) - {w};
      MapTallyRemove(wt, Live(net), w);
    }
  }

  /** Starting a rule trades its pair for its connects. */
  lemma StartTally(wt: Weight, lib: Library, s: System, i: nat)
    requires Enabled(lib, s, Start(i))
    ensures var (l, r) := s.net.pairs[i];
            Tally(wt, Step(lib, s, Start(i))) + PairWeight(wt, (l, r))
            == Tally(wt, s) + LinksTally(wt, Interact(l, r, Observed(s.net, l, r), s.next).value)
  {
    var (l, r) := s.net.pairs[i];
    var s' := Step(lib, s, Start(i));
    PairsTallyRemove(wt, s.net.pairs, i);
    InflightTallyAdd(wt, s.inflight, Interact(l, r, Observed(s.net, l, r), s.next).value);
    assert Live(s'.net) == Live(s.net);
  }

  /** A connect keeps the tally, but for what two ends weighed on a wire that is
      now used up. */
  lemma ActTally(wt: Weight, lib: Library, s: System, k: nat)
    requires Linear(s) && Enabled(lib, s, Act(k))
    ensures Tally(wt, Step(lib, s, Act(k))) + LostAt(wt, s.net, s.inflight[k][0]) == Tally(wt, s)
  {
    ActKeepsLinear(lib, s, k);
    ConnectTally(wt, s.net, s.inflight[k][0]);
    InflightTallyUpdate(wt, s.inflight, k, s.inflight[k][1..]);
  }

  /* ---- How many connects are still to come ---- */

  function Coming(inflight: seq<seq<Link>>): nat {
    if inflight == [] then 0 else Coming(inflight[..|inflight| - 1]) + |inflight[|inflight| - 1]|
  }

  lemma ComingAdd(inflight: seq<seq<Link>>, links: seq<Link>)
    ensures Coming(inflight + [links]) == Coming(inflight) + |links|
  {
    assert (inflight + [links])[..|inflight|] == inflight;
  }

  lemma {:induction false} ComingUpdate(inflight: seq<seq<Link>>, k: nat, links: seq<Link>)
    requires k < |inflight|
    ensures Coming(inflight[k := links]) + |inflight[k]| == Coming(inflight) + |links|
    decreases |inflight|
  {
    var last := |inflight| - 1;
    var front := inflight[..last];
    if k == last {
      assert inflight[k := links][..last] == front;
    } else {
      ComingUpdate(front, k, links);
      assert inflight[k := links][..last] == front[k := links];
    }
  }

  /* ---- Tallies of what refers to one wire ---- */

  // The weight of a port is at most its references to w, and an end of w counts
  // once.
  ghost predicate RefersTo(wt: Weight, w: Wire) {
    && (forall p :: wt.port(p) <= PortCount(p, w))
    && (forall v, p :: wt.end(v, p) <= One(v, w))
  }

  lemma LinkTallyBound(wt: Weight, link: Link, w: Wire)
    requires RefersTo(wt, w)
    ensures LinkWeight(wt, link) <= LinkCount(link, w)
  {
    match link
    case (AtPort(p), AtPort(q)) =>
    case (AtPort(p), AtWire(v)) =>
    case (AtWire(v), AtPort(p)) =>
    case (AtWire(u), AtWire(v)) => assert PortCount(WirePort(v), w) == One(v, w);
  }

  lemma {:induction false} LinksTallyBound(wt: Weight, links: seq<Link>, w: Wire)
    requires RefersTo(wt, w)
    ensures LinksTally(wt, links) <= LinksCount(links, w)
    decreases |links|
  {
    if links != [] {
      LinkTallyBound(wt, links[0], w);
      LinksTallyBound(wt, links[1..], w);
    }
  }

  lemma {:induction false} InflightTallyBound(wt: Weight, inflight: seq<seq<Link>>, w: Wire)
    requires RefersTo(wt, w)
    ensures InflightTally(wt, inflight) <= InflightCount(inflight, w)
    decreases |inflight|
  {
    if inflight != [] {
      InflightTallyBound(wt, inflight[..|inflight| - 1], w);
      LinksTallyBound(wt, inflight[|inflight| - 1], w);
    }
  }

  lemma {:induction false} PairsTallyBound(wt: Weight, pairs: seq<Pair>, w: Wire)
    requires RefersTo(wt, w)
    ensures PairsTally(wt, pairs) <= PairsCount(pairs, w)
    decreases |pairs|
  {
    if pairs != [] {
      PairsTallyBound(wt, pairs[..|pairs| - 1], w);
    }
  }

  lemma {:induction false} MapTallyBound(wt: Weight, m: map<Wire, Port>, w: Wire)
    requires RefersTo(wt, w)
    ensures MapTally(wt, m) <= MapCount(m, w) + if w in m then wt.end(w, m[w]) else 0
    decreases |m|
  {
    if m != map[] {
      var v :| v in m;
      MapTallyRemove(wt, m, v);
      MapCountRemove(m, v, w);
      MapTallyBound(wt, m - {v}, w);
    }
  }

  /** So it is at most the references to w, and the end that w is set to. */
  lemma TallyBound(wt: Weight, s: System, w: Wire)
    requires RefersTo(wt, w)
    ensures Tally(wt, s) <= NetCount(s.net, w) + InflightCount(s.inflight, w)
                            + if w in Live(s.net) then wt.end(w, s.net.target[w]) else 0
  {
    PairsTallyBound(wt, s.net.pairs, w);
    MapTallyBound(wt, Live(s.net), w);
    InflightTallyBound(wt, s.inflight, w);
  }

  // Something in a map weighs.
  lemma {:induction false} MapTallyWitness(wt: Weight, m: map<Wire, Port>) returns (u: Wire)
    requires MapTally(wt, m) > 0
    ensures u in m && EndWeight(wt, u, m[u]) > 0
    decreases |m|
  {
    var v :| v in m;
    MapTallyRemove(wt, m, v);
    if EndWeight(wt, v, m[v]) > 0 {
      u := v;
    } else {
      u := MapTallyWitness(wt, m - {v});
    }
  }

  /* ---- The last reference to a set wire ---- */

  // A connect that meets a set wire holds its only reference.
  ghost predicate MeetsSet(s: System, k: nat, v: Wire) {
    && k < |s.inflight| && s.inflight[k] != []
    && Meets(s.inflight[k][0].0, s.inflight[k][0].1) == Some(v) && v in s.net.target
  }

  lemma LinkRefers(link: Link, v: Wire)
    requires Meets(link.0, link.1) == Some(v)
    ensures LinkCount(link, v) >= 1
  {
  }

  lemma LastReference(s: System, k: nat, v: Wire)
    requires Linear(s) && MeetsSet(s, k, v)
    ensures NetCount(s.net, v) == 0 && InflightCount(s.inflight, v) == 1 && v in Live(s.net)
    ensures LinkCount(s.inflight[k][0], v) == 1 && LinksCount(s.inflight[k][1..], v) == 0
    ensures InflightCount(s.inflight[k := []], v) == 0
  {
    assert LinearAt(s.net, v, InflightCount(s.inflight, v));
    InflightUpdate(s.inflight, k, [], v);
    LinkRefers(s.inflight[k][0], v);
  }

  lemma NotInPairs(net: Net, i: nat, v: Wire)
    requires NetCount(net, v) == 0 && i < |net.pairs|
    ensures PortCount(net.pairs[i].0, v) == 0 && PortCount(net.pairs[i].1, v) == 0
  {
    PairsCountRemove(net.pairs, i, v);
  }

  lemma NotInTargets(net: Net, u: Wire, v: Wire)
    requires NetCount(net, v) == 0 && u in Live(net)
    ensures PortCount(net.target[u], v) == 0
  {
    MapCountRemove(Live(net), u, v);
  }

  lemma {:induction false} NotInLinks(links: seq<Link>, j: nat, v: Wire)
    requires LinksCount(links, v) == 0 && j < |links|
    ensures LinkCount(links[j], v) == 0
    decreases j
  {
    if j > 0 {
      NotInLinks(links[1..], j - 1, v);
    }
  }

  lemma NotInOthers(s: System, k: nat, v: Wire, k': nat, j: nat)
    requires Linear(s) && MeetsSet(s, k, v) && k' < |s.inflight| && j < |s.inflight[k']| && (k' != k || j > 0)
    ensures LinkCount(s.inflight[k'][j], v) == 0
  {
    LastReference(s, k, v);
    if k' == k {
      NotInLinks(s.inflight[k][1..], j - 1, v);
    } else {
      var others := s.inflight[k := []];
      InflightUpdate(others, k', [], v);
      NotInLinks(others[k'], j, v);
    }
  }

  lemma {:induction false} EmptyTally(wt: Weight, inflight: seq<seq<Link>>)
    requires forall k :: 0 <= k < |inflight| ==> inflight[k] == []
    ensures InflightTally(wt, inflight) == 0
    decreases |inflight|
  {
    if inflight != [] {
      EmptyTally(wt, inflight[..|inflight| - 1]);
    }
  }
}
