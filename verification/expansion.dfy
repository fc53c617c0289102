/** What connecting and expanding do to the equations of a running net, exactly: the
    terms are those of optimizer.dfy, in which every agent stands for itself. */
module Expansion {
  import opened Options
  import opened Nets
  import opened Interactions
  import opened Templates
  import opened Machine
  import opened Optimizer

  // The equations of the net, and of the connects still to come.
  ghost predicate Holds(s: System, sigma: Wire -> Term) {
    Satisfies(s.net, sigma) && AllLinksHold(s.inflight, sigma)
  }

  ghost predicate AllLinksHold(inflight: seq<seq<Link>>, sigma: Wire -> Term) {
    forall k :: 0 <= k < |inflight| ==> LinksHold(inflight[k], sigma)
  }

  lemma LinksHoldBoth(a: seq<Link>, b: seq<Link>, sigma: Wire -> Term)
    ensures LinksHold(a + b, sigma) <==> LinksHold(a, sigma) && LinksHold(b, sigma)
  {
    var all := a + b;
    if LinksHold(all, sigma) {
      forall i | 0 <= i < |a| ensures TargetDenotes(a[i].0, sigma) == TargetDenotes(a[i].1, sigma) {
        assert all[i] == a[i];
      }
      forall i | 0 <= i < |b| ensures TargetDenotes(b[i].0, sigma) == TargetDenotes(b[i].1, sigma) {
        assert all[|a| + i] == b[i];
      }
    }
  }

  /** A connect states what it was going to state: no equation is lost or gained. */
  lemma ActMeans(lib: Library, s: System, k: nat, sigma: Wire -> Term)
    requires Enabled(lib, s, Act(k))
    ensures Holds(Step(lib, s, Act(k)), sigma) <==> Holds(s, sigma)
  {
    var link, rest := s.inflight[k][0], s.inflight[k][1..];
    var s' := Step(lib, s, Act(k));
    ConnectMeans(s.net, link.0, link.1, sigma);
    assert s.inflight[k] == [link] + rest;
    LinksHoldBoth([link], rest, sigma);
    assert LinksHold([link], sigma) <==> TargetDenotes(link.0, sigma) == TargetDenotes(link.1, sigma) by {
      assert [link][0] == link;
    }
    assert forall j :: 0 <= j < |s.inflight| && j != k ==> s'.inflight[j] == s.inflight[j];
    assert s'.inflight[k] == rest;
  }

  /* ---- Expansions ---- */

  // What the copies of a template's wires stand for.
  ghost function Through(m: map<Wire, Wire>, sigma: Wire -> Term): Wire -> Term {
    w => if w in m then sigma(m[w]) else Nothing
  }

  ghost predicate TargetsHold(t: Template, c: set<Wire>, rho: Wire -> Term) {
    forall w :: w in c && w in t.target ==> rho(w) == Denotes(t.target[w], rho)
  }

  lemma CopyDenotes(original: Port, copy: Port, m: map<Wire, Wire>, sigma: Wire -> Term)
    requires Done(original, copy, m)
    ensures Denotes(copy, sigma) == Denotes(original, Through(m, sigma))
  {
    var rho := Through(m, sigma);
    forall i | 0 <= i < |Wires(original)| ensures Wires(copy)[i] == m[Wires(original)[i]] {
    }
    if original.Graft? {
      var ws, ws' := original.wires, copy.wires;
      assert seq(|ws'|, i requires 0 <= i < |ws'| => sigma(ws'[i]))
             == seq(|ws|, i requires 0 <= i < |ws| => rho(ws[i]));
    }
  }

  lemma {:induction false} PairLinksHold(pairs: seq<Pair>, sigma: Wire -> Term)
    ensures LinksHold(PairLinks(pairs), sigma) <==> PairsHold(pairs, sigma)
    decreases |pairs|
  {
    if pairs != [] {
      var front, last := pairs[..|pairs| - 1], pairs[|pairs| - 1];
      var link: Link := (AtPort(last.0), AtPort(last.1));
      PairLinksHold(front, sigma);
      LinksHoldBoth(PairLinks(front), [link], sigma);
      PairMeans(front, last, sigma);
      assert front + [last] == pairs && [link][0] == link;
    }
  }

  lemma CopiedPairsHold(originals: seq<Pair>, copies: seq<Pair>, m: map<Wire, Wire>, sigma: Wire -> Term)
    requires |copies| == |originals|
    requires forall i :: 0 <= i < |copies| ==>
               Done(originals[i].0, copies[i].0, m) && Done(originals[i].1, copies[i].1, m)
    ensures PairsHold(copies, sigma) <==> PairsHold(originals, Through(m, sigma))
  {
    forall i | 0 <= i < |copies|
      ensures Denotes(copies[i].0, sigma) == Denotes(originals[i].0, Through(m, sigma))
      ensures Denotes(copies[i].1, sigma) == Denotes(originals[i].1, Through(m, sigma))
    {
      CopyDenotes(originals[i].0, copies[i].0, m, sigma);
      CopyDenotes(originals[i].1, copies[i].1, m, sigma);
    }
  }

  lemma CopiedTargetsHold(t: Template, next: Wire, m: map<Wire, Wire>, copied: map<Wire, Port>, pairs: seq<Pair>,
                          sigma: Wire -> Term)
    requires Copy(t, next, m, copied, pairs)
    ensures (forall v :: v in copied ==> sigma(v) == Denotes(copied[v], sigma))
       <==> TargetsHold(t, m.Keys, Through(m, sigma))
  {
    var rho := Through(m, sigma);
    forall w | w in m && w in t.target
      ensures rho(w) == sigma(m[w]) && Denotes(copied[m[w]], sigma) == Denotes(t.target[w], rho)
    {
      CopyDenotes(t.target[w], copied[m[w]], m, sigma);
    }
    if TargetsHold(t, m.Keys, rho) {
      forall v | v in copied ensures sigma(v) == Denotes(copied[v], sigma) {
        var w :| w in m && m[w] == v;
      }
    }
  }

  lemma UnionSatisfies(net: Net, copied: map<Wire, Port>, sigma: Wire -> Term)
    requires net.target.Keys !! copied.Keys
    ensures Satisfies(net.(target := net.target + copied), sigma)
       <==> Satisfies(net, sigma) && forall v :: v in copied ==> sigma(v) == Denotes(copied[v], sigma)
  {
    var target := net.target + copied;
    assert forall v :: v in net.target ==> target[v] == net.target[v];
    assert forall v :: v in copied ==> target[v] == copied[v];
  }

  lemma InterfaceLinks(a: Wire, p: Port, b: Wire, c: Wire, sigma: Wire -> Term)
    ensures LinksHold([(AtWire(a), AtPort(p)), (AtWire(b), AtWire(c))], sigma)
       <==> sigma(a) == Denotes(p, sigma) && sigma(b) == sigma(c)
  {
    var links: seq<Link> := [(AtWire(a), AtPort(p)), (AtWire(b), AtWire(c))];
    if LinksHold(links, sigma) {
      assert TargetDenotes(links[0].0, sigma) == TargetDenotes(links[0].1, sigma);
      assert TargetDenotes(links[1].0, sigma) == TargetDenotes(links[1].1, sigma);
    }
  }

  // The state without the pair that is expanded.
  function Remaining(s: System, i: nat): System
    requires i < |s.net.pairs|
  {
    s.(net := s.net.(pairs := Without(s.net.pairs, i)))
  }

  /** An expansion states exactly what its template does: the equations of the targets
      and pairs that are reached, between what the graft faced and the graft's wire.
      Facing an erasure, it erases that wire. */
  lemma ExpandMeans(lib: Library, s: System, move: Move, sigma: Wire -> Term)
    requires Linear(s) && move.Expand? && Enabled(lib, s, move)
    ensures var (graft, port) := GraftOf(s.net.pairs[move.graft]);
            var t, rho := lib[graft.agent], Through(move.m, sigma);
            Holds(Step(lib, s, move), sigma)
            <==> && Holds(Remaining(s, move.graft), sigma)
                 && if port.Erasure? then sigma(graft.wires[0]) == Nothing
                    else && TargetsHold(t, move.m.Keys, rho) && PairsHold(t.pairs, rho)
                         && rho(t.input) == Denotes(port, sigma) && rho(t.output) == sigma(graft.wires[0])
  {
    hide Denotes, PairsHold, Satisfies, LinksHold, TargetsHold;
    var Expand(i, m, copied, pairs, next) := move;
    var (graft, port) := GraftOf(s.net.pairs[i]);
    var t := lib[graft.agent];
    var links := ExpansionLinks(t, graft, port, m, pairs);
    var s', rest := Step(lib, s, move), Remaining(s, i);
    AddedLinksHold(s.inflight, links, sigma);
    if port.Erasure? {
      assert s'.net == rest.net;
      ErasureLink(port, graft.wires[0], sigma);
    } else {
      forall f | f in copied ensures f !in s.net.target {
        assert f in m.Values;
      }
      UnionSatisfies(rest.net, copied, sigma);
      CopiedTargetsHold(t, s.next, m, copied, pairs, sigma);
      CopiedPairsHold(t.pairs, pairs, m, sigma);
      PairLinksHold(pairs, sigma);
      var ends: seq<Link> := [(AtWire(m[t.input]), AtPort(port)), (AtWire(m[t.output]), AtWire(graft.wires[0]))];
      LinksHoldBoth(PairLinks(pairs), ends, sigma);
      InterfaceLinks(m[t.input], port, m[t.output], graft.wires[0], sigma);
    }
  }

  lemma ErasureLink(port: Port, w: Wire, sigma: Wire -> Term)
    requires port.Erasure?
    ensures LinksHold([(AtPort(port), AtWire(w))], sigma) <==> sigma(w) == Nothing
  {
    var links: seq<Link> := [(AtPort(port), AtWire(w))];
    if LinksHold(links, sigma) {
      assert TargetDenotes(links[0].0, sigma) == TargetDenotes(links[0].1, sigma);
    }
  }

  lemma AddedLinksHold(inflight: seq<seq<Link>>, links: seq<Link>, sigma: Wire -> Term)
    ensures AllLinksHold(inflight + [links], sigma) <==> AllLinksHold(inflight, sigma) && LinksHold(links, sigma)
  {
    var all := inflight + [links];
    if AllLinksHold(all, sigma) {
      assert all[|inflight|] == links;
      forall k | 0 <= k < |inflight| ensures LinksHold(inflight[k], sigma) {
        assert all[k] == inflight[k];
      }
    }
  }
}
