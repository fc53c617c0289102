/** Solutions of a net: data for its wires that every link agrees on. Interactions
    and their connects take solutions to solutions, in any order. */
module Solutions {
  import opened Options
  import opened Nets
  import opened Interactions
  import opened Templates
  import opened Machine

  /* Data over wires, seen through an algebra: what a value, a tuple and an
     erasure stand for, which data is a value again, and what data each template
     takes to what. An erasure stands for nothing in particular when `nothing` is
     None. */
  datatype Algebra<!D> = Algebra(
    data: Value -> D, tuple: (D, D) -> D, value: D -> Option<Value>, nothing: Option<D>, graft: (nat, D, D) -> bool)

  // "x" builds and takes apart tuples; the other two tags copy.
  predicate Copies(tag: string) {
    tag == "dup" || tag == "share"
  }

  function Merged<D>(al: Algebra<D>, f: (Value, Value) -> Option<Value>, t: D, u: D, swapped: bool): Option<Value> {
    if al.value(t).None? || al.value(u).None? then None
    else if swapped then f(al.value(u).value, al.value(t).value)
    else f(al.value(t).value, al.value(u).value)
  }

  /* What a port says about the data t on the link it ends. A raised error
     promises nothing. */
  ghost predicate Accepts<D>(al: Algebra<D>, p: Port, t: D, sigma: Wire -> D) {
    match p
    case WirePort(w) => sigma(w) == t
    case ValuePort(v) => t == al.data(v)
    case Erasure(_) => al.nothing.Some? ==> t == al.nothing.value
    case Comb(tag, a, b) =>
      if Copies(tag) then sigma(a) == t && sigma(b) == t else t == al.tuple(sigma(a), sigma(b))
    case Merge(f, a, b, swapped) =>
      Merged(al, f, t, sigma(a), swapped).Some? ==> sigma(b) == al.data(Merged(al, f, t, sigma(a), swapped).value)
    case Split(f, a, b) =>
      al.value(t).Some? && f(al.value(t).value).Some? ==>
        sigma(a) == al.data(f(al.value(t).value).value.0) && sigma(b) == al.data(f(al.value(t).value).value.1)
    case Graft(agent, ws) => |ws| == 1 ==> al.graft(agent, t, sigma(ws[0]))
  }

  ghost predicate AcceptsAt<D>(al: Algebra<D>, x: Target, t: D, sigma: Wire -> D) {
    match x
    case AtWire(w) => sigma(w) == t
    case AtPort(p) => Accepts(al, p, t, sigma)
  }

  ghost predicate Consistent<D(!new)>(al: Algebra<D>, x: Target, y: Target, sigma: Wire -> D) {
    exists t :: AcceptsAt(al, x, t, sigma) && AcceptsAt(al, y, t, sigma)
  }

  ghost predicate Solves<D(!new)>(al: Algebra<D>, s: System, sigma: Wire -> D) {
    && (forall w :: w in Live(s.net) ==> Accepts(al, s.net.target[w], sigma(w), sigma))
    && (forall i :: 0 <= i < |s.net.pairs| ==>
          Consistent(al, AtPort(s.net.pairs[i].0), AtPort(s.net.pairs[i].1), sigma))
    && (forall k, j :: 0 <= k < |s.inflight| && 0 <= j < |s.inflight[k]| ==>
          Consistent(al, s.inflight[k][j].0, s.inflight[k][j].1, sigma))
  }

  ghost predicate Extends<D>(sigma: Wire -> D, tau: Wire -> D, n: Wire) {
    forall w: Wire :: w < n ==> sigma(w) == tau(w)
  }

  /* ---- Algebras and the rules they make sound ---- */

  ghost predicate TuplesSplit<D(!new)>(al: Algebra<D>) {
    forall a, b, c, d :: al.tuple(a, b) == al.tuple(c, d) ==> a == c && b == d
  }

  ghost predicate TuplesCommute<D(!new)>(al: Algebra<D>) {
    forall a, b :: al.tuple(a, b) == al.tuple(b, a)
  }

  ghost predicate ValuesReturn<D(!new)>(al: Algebra<D>) {
    && (forall v :: al.value(al.data(v)) == Some(v))
    && (forall v, a, b :: al.data(v) != al.tuple(a, b))
  }

  predicate Copier(p: Port) {
    p.Comb? && Copies(p.tag)
  }

  predicate Tuple(p: Port) {
    p.Comb? && p.tag == "x"
  }

  // A duplicator standing left of a tuple crosses the copies.
  predicate Crosses(l: Port, r: Port) {
    Copier(l) && Tuple(r)
  }

  // The interaction of l and r takes solutions to solutions.
  ghost predicate Sound<D(!new)>(al: Algebra<D>, l: Port, r: Port) {
    l.WirePort? || r.WirePort?
    || if l.Erasure? || r.Erasure? then
         al.nothing.None? || ((Copier(l) || Wires(l) == []) && (Copier(r) || Wires(r) == []))
       else if l.Comb? && r.Comb? then
         && (Copier(l) || Tuple(l)) && (Copier(r) || Tuple(r))
         && (Crosses(l, r) ==> TuplesCommute(al))
         && (Tuple(l) && Tuple(r) ==> TuplesSplit(al))
       else
         var agent := if l.ValuePort? then r else l;
         Copier(agent) || (ValuesReturn(al) && al.nothing.None? && (agent.Comb? ==> Tuple(agent)))
  }

  /* ---- Old ports only see old wires ---- */

  ghost predicate Below(x: Target, n: Wire) {
    forall w: Wire :: w >= n ==> TargetCount(x, w) == 0
  }

  lemma AcceptsSame<D>(al: Algebra<D>, p: Port, t: D, sigma: Wire -> D, tau: Wire -> D, n: Wire)
    requires Below(AtPort(p), n) && Extends(sigma, tau, n)
    ensures Accepts(al, p, t, sigma) <==> Accepts(al, p, t, tau)
  {
    match p
    case WirePort(w) => assert TargetCount(AtPort(p), w) >= 1;
    case Comb(_, a, b) => assert TargetCount(AtPort(p), a) >= 1 && TargetCount(AtPort(p), b) >= 1;
    case Merge(_, a, b, _) => assert TargetCount(AtPort(p), a) >= 1 && TargetCount(AtPort(p), b) >= 1;
    case Split(_, a, b) => assert TargetCount(AtPort(p), a) >= 1 && TargetCount(AtPort(p), b) >= 1;
    case Graft(_, ws) => assert |ws| == 1 ==> TargetCount(AtPort(p), ws[0]) >= 1;
    case _ =>
  }

  lemma ConsistentSame<D(!new)>(al: Algebra<D>, x: Target, y: Target, sigma: Wire -> D, tau: Wire -> D, n: Wire)
    requires Below(x, n) && Below(y, n) && Extends(sigma, tau, n) && Consistent(al, x, y, sigma)
    ensures Consistent(al, x, y, tau)
  {
    var t :| AcceptsAt(al, x, t, sigma) && AcceptsAt(al, y, t, sigma);
    AcceptsAtSame(al, x, t, sigma, tau, n);
    AcceptsAtSame(al, y, t, sigma, tau, n);
  }

  lemma AcceptsAtSame<D>(al: Algebra<D>, x: Target, t: D, sigma: Wire -> D, tau: Wire -> D, n: Wire)
    requires Below(x, n) && Extends(sigma, tau, n)
    ensures AcceptsAt(al, x, t, sigma) <==> AcceptsAt(al, x, t, tau)
  {
    match x
    case AtWire(w) => assert TargetCount(x, w) == 1;
    case AtPort(p) => AcceptsSame(al, p, t, sigma, tau, n);
  }

  lemma PairsAreBelow(s: System, i: nat)
    requires Linear(s) && i < |s.net.pairs|
    ensures Below(AtPort(s.net.pairs[i].0), s.next) && Below(AtPort(s.net.pairs[i].1), s.next)
  {
    forall w: Wire | w >= s.next
      ensures TargetCount(AtPort(s.net.pairs[i].0), w) == 0 && TargetCount(AtPort(s.net.pairs[i].1), w) == 0
    {
      assert LinearAt(s.net, w, InflightCount(s.inflight, w));
      PairsCountRemove(s.net.pairs, i, w);
    }
  }

  lemma TargetsAreBelow(s: System, v: Wire)
    requires Linear(s) && v in Live(s.net)
    ensures Below(AtPort(s.net.target[v]), s.next) && v < s.next
  {
    forall w: Wire | w >= s.next ensures TargetCount(AtPort(s.net.target[v]), w) == 0 {
      assert LinearAt(s.net, w, InflightCount(s.inflight, w));
      MapCountRemove(Live(s.net), v, w);
    }
  }

  lemma {:induction false} LinkInLinks(links: seq<Link>, j: nat, w: Wire)
    requires j < |links|
    ensures LinkCount(links[j], w) <= LinksCount(links, w)
    decreases j
  {
    if j > 0 {
      LinkInLinks(links[1..], j - 1, w);
    }
  }

  lemma LinksAreBelow(s: System, k: nat, j: nat)
    requires Linear(s) && k < |s.inflight| && j < |s.inflight[k]|
    ensures Below(s.inflight[k][j].0, s.next) && Below(s.inflight[k][j].1, s.next)
  {
    forall w: Wire | w >= s.next
      ensures TargetCount(s.inflight[k][j].0, w) == 0 && TargetCount(s.inflight[k][j].1, w) == 0
    {
      assert LinearAt(s.net, w, InflightCount(s.inflight, w));
      InflightUpdate(s.inflight, k, [], w);
      LinkInLinks(s.inflight[k], j, w);
    }
  }

  /* ---- Connects ---- */

  lemma ActSolves<D(!new)>(al: Algebra<D>, lib: Library, s: System, k: nat, sigma: Wire -> D)
    requires Linear(s) && Enabled(lib, s, Act(k)) && Solves(al, s, sigma)
    ensures Solves(al, Step(lib, s, Act(k)), sigma)
  {
    ActKeepsLinear(lib, s, k);
    var s' := Step(lib, s, Act(k));
    var (x, y) := s.inflight[k][0];
    assert Consistent(al, x, y, sigma);
    var t :| AcceptsAt(al, x, t, sigma) && AcceptsAt(al, y, t, sigma);
    if x.AtPort? && y.AtPort? {
      assert Live(s'.net) == Live(s.net);
      AddedPair(al, s.net.pairs, (x.port, y.port), sigma);
    } else {
      var w := Meets(x, y).value;
      var p := if x.AtPort? then x.port else if y.AtPort? then y.port else WirePort(y.wire);
      assert s'.net == ConnectWireToPort(s.net, w, p) && Accepts(al, p, sigma(w), sigma);
      if w in s.net.target {
        assert w in Live(s.net);
        assert AcceptsAt(al, AtPort(s.net.target[w]), sigma(w), sigma) && AcceptsAt(al, AtPort(p), sigma(w), sigma);
        AddedPair(al, s.net.pairs, (s.net.target[w], p), sigma);
      }
    }
    forall i, j | 0 <= i < |s'.inflight| && 0 <= j < |s'.inflight[i]|
      ensures Consistent(al, s'.inflight[i][j].0, s'.inflight[i][j].1, sigma)
    {
      if i == k {
        assert s'.inflight[i][j] == s.inflight[k][j + 1];
      }
    }
  }

  lemma AddedPair<D(!new)>(al: Algebra<D>, pairs: seq<Pair>, pair: Pair, sigma: Wire -> D)
    requires forall i :: 0 <= i < |pairs| ==> Consistent(al, AtPort(pairs[i].0), AtPort(pairs[i].1), sigma)
    requires Consistent(al, AtPort(pair.0), AtPort(pair.1), sigma)
    ensures var more := pairs + [pair];
            forall i :: 0 <= i < |more| ==> Consistent(al, AtPort(more[i].0), AtPort(more[i].1), sigma)
  {
  }

  /* ---- Rules ---- */

  ghost predicate AllConsistent<D(!new)>(al: Algebra<D>, links: seq<Link>, sigma: Wire -> D) {
    forall j :: 0 <= j < |links| ==> Consistent(al, links[j].0, links[j].1, sigma)
  }

  // The data of the eight fresh wires of a commutation.
  function Fresh8<D>(sigma: Wire -> D, next: Wire, t: seq<D>): Wire -> D
    requires |t| == 8
  {
    (w: Wire) => if next <= w < next + 8 then t[w - next] else sigma(w)
  }

  lemma Linked<D(!new)>(al: Algebra<D>, x: Target, y: Target, t: D, sigma: Wire -> D)
    requires AcceptsAt(al, x, t, sigma) && AcceptsAt(al, y, t, sigma)
    ensures Consistent(al, x, y, sigma)
  {
  }

  ghost predicate Carries<D>(al: Algebra<D>, link: Link, t: D, sigma: Wire -> D) {
    AcceptsAt(al, link.0, t, sigma) && AcceptsAt(al, link.1, t, sigma)
  }

  // The eight connects of a commutation, carrying the given data.
  lemma CommuteLinked<D(!new)>(al: Algebra<D>, links: seq<Link>, tau: Wire -> D,
                               d0: D, d1: D, d2: D, d3: D, d4: D, d5: D, d6: D, d7: D)
    requires |links| == 8
    requires Carries(al, links[0], d0, tau) && Carries(al, links[1], d1, tau)
    requires Carries(al, links[2], d2, tau) && Carries(al, links[3], d3, tau)
    requires Carries(al, links[4], d4, tau) && Carries(al, links[5], d5, tau)
    requires Carries(al, links[6], d6, tau) && Carries(al, links[7], d7, tau)
    ensures AllConsistent(al, links, tau)
  {
    Linked(al, links[0].0, links[0].1, d0, tau);
    Linked(al, links[1].0, links[1].1, d1, tau);
    Linked(al, links[2].0, links[2].1, d2, tau);
    Linked(al, links[3].0, links[3].1, d3, tau);
    Linked(al, links[4].0, links[4].1, d4, tau);
    Linked(al, links[5].0, links[5].1, d5, tau);
    Linked(al, links[6].0, links[6].1, d6, tau);
    Linked(al, links[7].0, links[7].1, d7, tau);
  }

  /* Copies of copies carry t everywhere. Of a tuple and a duplicator, both outputs
     get the tuple's halves: in order when the tuple stands left, else crossed. */
  lemma CommuteSolves<D(!new)>(al: Algebra<D>, l: Port, r: Port, next: Wire, t: D, sigma: Wire -> D)
    returns (tau: Wire -> D)
    requires l.Comb? && r.Comb? && l.tag != r.tag && Sound(al, l, r)
    requires Below(AtPort(l), next) && Below(AtPort(r), next)
    requires Accepts(al, l, t, sigma) && Accepts(al, r, t, sigma)
    ensures Extends(sigma, tau, next) && AllConsistent(al, CommuteOrAnnihilate(l, r, next), tau)
  {
    if Copier(l) && Copier(r) {
      tau := Fresh8(sigma, next, [t, t, t, t, t, t, t, t]);
      AcceptsSame(al, l, t, sigma, tau, next);
      AcceptsSame(al, r, t, sigma, tau, next);
      CommuteLinked(al, CommuteOrAnnihilate(l, r, next), tau, t, t, t, t, t, t, t, t);
    } else if Tuple(l) {
      tau := TupleCopySolves(al, l, r, next, t, sigma);
    } else {
      tau := CopyTupleSolves(al, l, r, next, t, sigma);
    }
  }

  lemma TupleCopySolves<D(!new)>(al: Algebra<D>, l: Port, r: Port, next: Wire, t: D, sigma: Wire -> D)
    returns (tau: Wire -> D)
    requires Tuple(l) && Copier(r) && Below(AtPort(l), next) && Below(AtPort(r), next)
    requires Accepts(al, l, t, sigma) && Accepts(al, r, t, sigma)
    ensures Extends(sigma, tau, next) && AllConsistent(al, CommuteOrAnnihilate(l, r, next), tau)
  {
    var p, q := sigma(l.left), sigma(l.right);
    assert TargetCount(AtPort(l), l.left) >= 1 && TargetCount(AtPort(l), l.right) >= 1;
    tau := Fresh8(sigma, next, [p, q, p, q, p, p, q, q]);
    AcceptsSame(al, l, t, sigma, tau, next);
    AcceptsSame(al, r, t, sigma, tau, next);
    CommuteLinked(al, CommuteOrAnnihilate(l, r, next), tau, p, q, p, q, p, q, t, t);
  }

  lemma CopyTupleSolves<D(!new)>(al: Algebra<D>, l: Port, r: Port, next: Wire, t: D, sigma: Wire -> D)
    returns (tau: Wire -> D)
    requires Crosses(l, r) && TuplesCommute(al) && Below(AtPort(l), next) && Below(AtPort(r), next)
    requires Accepts(al, l, t, sigma) && Accepts(al, r, t, sigma)
    ensures Extends(sigma, tau, next) && AllConsistent(al, CommuteOrAnnihilate(l, r, next), tau)
  {
    var p, q := sigma(r.left), sigma(r.right);
    assert TargetCount(AtPort(r), r.left) >= 1 && TargetCount(AtPort(r), r.right) >= 1;
    assert t == al.tuple(p, q) == al.tuple(q, p);
    tau := Fresh8(sigma, next, [p, p, q, q, q, p, q, p]);
    AcceptsSame(al, l, t, sigma, tau, next);
    AcceptsSame(al, r, t, sigma, tau, next);
    CommuteLinked(al, CommuteOrAnnihilate(l, r, next), tau, p, p, q, q, t, t, p, q);
  }

  lemma {:induction false} EraseConsistent<D(!new)>(al: Algebra<D>, ws: seq<Wire>, sigma: Wire -> D)
    requires al.nothing.Some? ==> forall i :: 0 <= i < |ws| ==> sigma(ws[i]) == al.nothing.value
    ensures AllConsistent(al, Erase(ws), sigma)
    decreases |ws|
  {
    if ws != [] {
      EraseConsistent(al, ws[1..], sigma);
      Linked(al, AtPort(Erasure(false)), AtWire(ws[0]), sigma(ws[0]), sigma);
    }
  }

  // What the merge rule saw on its operand wire is what the equations say.
  ghost predicate SeenFits<D>(al: Algebra<D>, l: Port, r: Port, seen: Option<Port>, sigma: Wire -> D) {
    var agent := if l.ValuePort? then r else l;
    agent.Merge? && seen.Some? && seen.value.ValuePort? ==> sigma(agent.operand) == al.data(seen.value.value)
  }

  lemma MergeSolves<D(!new)>(al: Algebra<D>, agent: Port, v: Value, seen: Option<Port>, next: Wire, sigma: Wire -> D)
    returns (tau: Wire -> D)
    requires agent.Merge? && ValuesReturn(al) && al.nothing.None?
    requires Below(AtPort(agent), next) && Accepts(al, agent, al.data(v), sigma)
    requires seen.Some? && seen.value.ValuePort? ==> sigma(agent.operand) == al.data(seen.value.value)
    ensures Extends(sigma, tau, next) && AllConsistent(al, ExtMerge(agent, v, seen, next), tau)
  {
    var links := ExtMerge(agent, v, seen, next);
    if seen.Some? && seen.value.ValuePort? {
      tau := sigma;
      Linked(al, links[0].0, links[0].1, sigma(agent.operand), tau);
      Linked(al, links[1].0, links[1].1, sigma(agent.result), tau);
    } else {
      tau := (w: Wire) => if w == next then al.data(v) else sigma(w);
      AcceptsSame(al, agent, al.data(v), sigma, tau, next);
      Linked(al, links[0].0, links[0].1, al.data(v), tau);
      Linked(al, links[1].0, links[1].1, tau(agent.operand), tau);
    }
  }

  lemma AgentSolves<D(!new)>(al: Algebra<D>, agent: Port, v: Value, seen: Option<Port>, next: Wire, sigma: Wire -> D)
    returns (tau: Wire -> D)
    requires agent.Split? || agent.Merge? || agent.Comb?
    requires Copier(agent) || (ValuesReturn(al) && al.nothing.None? && (agent.Comb? ==> Tuple(agent)))
    requires Below(AtPort(agent), next) && Accepts(al, agent, al.data(v), sigma)
    requires agent.Merge? && seen.Some? && seen.value.ValuePort? ==> sigma(agent.operand) == al.data(seen.value.value)
    ensures Extends(sigma, tau, next)
    ensures AllConsistent(al, match agent
                              case Split(_, _, _) => ExtSplit(agent, v)
                              case Merge(_, _, _, _) => ExtMerge(agent, v, seen, next)
                              case _ => if agent.Comb? then Clone(agent, v) else [], tau)
  {
    tau := sigma;
    match agent
    case Merge(_, _, _, _) => tau := MergeSolves(al, agent, v, seen, next, sigma);
    case Split(_, a, b) =>
      var links := ExtSplit(agent, v);
      if agent.split(v).None? {
        EraseConsistent(al, Wires(agent), sigma);
      } else {
        Linked(al, links[0].0, links[0].1, sigma(a), sigma);
        Linked(al, links[1].0, links[1].1, sigma(b), sigma);
      }
    case Comb(_, a, b) =>
      var links := Clone(agent, v);
      Linked(al, links[0].0, links[0].1, al.data(v), sigma);
      Linked(al, links[1].0, links[1].1, al.data(v), sigma);
  }

  /** A sound rule's connects hold wherever its pair did, once its fresh wires are
      given their data. */
  lemma RuleSolves<D(!new)>(al: Algebra<D>, l: Port, r: Port, seen: Option<Port>, next: Wire, sigma: Wire -> D)
    returns (tau: Wire -> D)
    requires Interact(l, r, seen, next).Some? && Sound(al, l, r)
    requires Below(AtPort(l), next) && Below(AtPort(r), next)
    requires Consistent(al, AtPort(l), AtPort(r), sigma) && SeenFits(al, l, r, seen, sigma)
    ensures Extends(sigma, tau, next)
    ensures AllConsistent(al, Interact(l, r, seen, next).value, tau)
  {
    var links := Interact(l, r, seen, next).value;
    var t :| AcceptsAt(al, AtPort(l), t, sigma) && AcceptsAt(al, AtPort(r), t, sigma);
    tau := sigma;
    if l.WirePort? || r.WirePort? {
      Linked(al, links[0].0, links[0].1, t, sigma);
    } else if l.Erasure? || r.Erasure? {
      EraseConsistent(al, Wires(l), sigma);
      EraseConsistent(al, Wires(r), sigma);
    } else if l.Comb? && r.Comb? {
      if l.tag == r.tag {
        Linked(al, links[0].0, links[0].1, sigma(l.left), sigma);
        Linked(al, links[1].0, links[1].1, sigma(l.right), sigma);
      } else {
        tau := CommuteSolves(al, l, r, next, t, sigma);
      }
    } else {
      var (agent, data) := if l.ValuePort? then (r, l) else (l, r);
      tau := AgentSolves(al, agent, data.value, seen, next, sigma);
    }
  }

  lemma StartSolves<D(!new)>(al: Algebra<D>, lib: Library, s: System, i: nat, sigma: Wire -> D) returns (tau: Wire -> D)
    requires Linear(s) && Enabled(lib, s, Start(i)) && Solves(al, s, sigma)
    requires Sound(al, s.net.pairs[i].0, s.net.pairs[i].1)
    ensures Extends(sigma, tau, s.next) && Solves(al, Step(lib, s, Start(i)), tau)
  {
    var (l, r) := s.net.pairs[i];
    var seen := Observed(s.net, l, r);
    PairsAreBelow(s, i);
    SeenIsLive(al, s, i, sigma);
    tau := RuleSolves(al, l, r, seen, s.next, sigma);
    StillSolves(al, lib, s, i, sigma, tau);
  }

  lemma SeenIsLive<D(!new)>(al: Algebra<D>, s: System, i: nat, sigma: Wire -> D)
    requires Linear(s) && Solves(al, s, sigma) && i < |s.net.pairs|
    ensures SeenFits(al, s.net.pairs[i].0, s.net.pairs[i].1, Observed(s.net, s.net.pairs[i].0, s.net.pairs[i].1), sigma)
  {
    var (l, r) := s.net.pairs[i];
    var agent := if l.ValuePort? then r else l;
    if agent.Merge? && agent.operand in s.net.target {
      var w := agent.operand;
      assert LinearAt(s.net, w, InflightCount(s.inflight, w));
      PairsCountRemove(s.net.pairs, i, w);
      assert PortCount(agent, w) >= 1;
      assert w in Live(s.net);
    }
  }

  lemma StillSolves<D(!new)>(al: Algebra<D>, lib: Library, s: System, i: nat, sigma: Wire -> D, tau: Wire -> D)
    requires Linear(s) && Enabled(lib, s, Start(i)) && Solves(al, s, sigma) && Extends(sigma, tau, s.next)
    requires var (l, r) := s.net.pairs[i];
             AllConsistent(al, Interact(l, r, Observed(s.net, l, r), s.next).value, tau)
    ensures Solves(al, Step(lib, s, Start(i)), tau)
  {
    var (l, r) := s.net.pairs[i];
    var s' := Step(lib, s, Start(i));
    assert Live(s'.net) == Live(s.net);
    forall w | w in Live(s'.net) ensures Accepts(al, s'.net.target[w], tau(w), tau) {
      TargetsAreBelow(s, w);
      AcceptsSame(al, s.net.target[w], sigma(w), sigma, tau, s.next);
    }
    OthersSolve(al, s, i, Interact(l, r, Observed(s.net, l, r), s.next).value, sigma, tau);
  }

  // Everything but the pair, and the new connects.
  lemma OthersSolve<D(!new)>(al: Algebra<D>, s: System, i: nat, links: seq<Link>, sigma: Wire -> D, tau: Wire -> D)
    requires Linear(s) && i < |s.net.pairs| && Solves(al, s, sigma) && Extends(sigma, tau, s.next)
    requires AllConsistent(al, links, tau)
    ensures var pairs := Without(s.net.pairs, i);
            forall j :: 0 <= j < |pairs| ==> Consistent(al, AtPort(pairs[j].0), AtPort(pairs[j].1), tau)
    ensures var inflight: seq<seq<Link>> := s.inflight + [links];
            forall k, j :: 0 <= k < |inflight| && 0 <= j < |inflight[k]| ==>
                             Consistent(al, inflight[k][j].0, inflight[k][j].1, tau)
  {
    var pairs := Without(s.net.pairs, i);
    var inflight: seq<seq<Link>> := s.inflight + [links];
    forall j | 0 <= j < |pairs| ensures Consistent(al, AtPort(pairs[j].0), AtPort(pairs[j].1), tau) {
      var j' := if j < i then j else j + 1;
      assert pairs[j] == s.net.pairs[j'];
      PairsAreBelow(s, j');
      ConsistentSame(al, AtPort(s.net.pairs[j'].0), AtPort(s.net.pairs[j'].1), sigma, tau, s.next);
    }
    forall k, j | 0 <= k < |inflight| && 0 <= j < |inflight[k]|
      ensures Consistent(al, inflight[k][j].0, inflight[k][j].1, tau)
    {
      if k < |s.inflight| {
        assert inflight[k] == s.inflight[k];
        LinksAreBelow(s, k, j);
        ConsistentSame(al, s.inflight[k][j].0, s.inflight[k][j].1, sigma, tau, s.next);
      }
    }
  }

  /* ---- Expansions ---- */

  ghost predicate TemplateSolved<D(!new)>(al: Algebra<D>, t: Template, rho: Wire -> D) {
    && (forall w :: w in t.target ==> Accepts(al, t.target[w], rho(w), rho))
    && (forall i :: 0 <= i < |t.pairs| ==> Consistent(al, AtPort(t.pairs[i].0), AtPort(t.pairs[i].1), rho))
  }

  /* Each template does what the algebra says of it. Its own grafts do too, so a
     template may expand itself. */
  ghost predicate Lawful<D(!new)>(al: Algebra<D>, lib: Library) {
    forall a, t, u :: a in lib && al.graft(a, t, u) ==>
      exists rho: Wire -> D :: TemplateSolved(al, lib[a], rho) && rho(lib[a].input) == t && rho(lib[a].output) == u
  }

  // Data for the copied wires.
  ghost function Copied<D>(m: map<Wire, Wire>, rho: Wire -> D, sigma: Wire -> D): Wire -> D {
    (w: Wire) => if w in m.Values then var v :| v in m && m[v] == w; rho(v) else sigma(w)
  }

  lemma CopiedWires<D>(m: map<Wire, Wire>, rho: Wire -> D, sigma: Wire -> D, next: Wire)
    requires Injective(m) && forall w :: w in m ==> m[w] >= next
    ensures forall w :: w in m ==> Copied(m, rho, sigma)(m[w]) == rho(w)
    ensures Extends(sigma, Copied(m, rho, sigma), next)
  {
  }

  // A copied port says of the copied data what its original says of the data.
  lemma CopyAccepts<D>(al: Algebra<D>, p: Port, q: Port, m: map<Wire, Wire>, t: D, rho: Wire -> D, tau: Wire -> D)
    requires Done(p, q, m) && forall w :: w in m ==> tau(m[w]) == rho(w)
    ensures Accepts(al, q, t, tau) <==> Accepts(al, p, t, rho)
  {
    var ws := Wires(p);
    assert forall i :: 0 <= i < |ws| ==> Renamed(ws, m)[i] == m[ws[i]];
    match p
    case WirePort(a) => assert ws[0] == a;
    case Comb(_, a, b) => assert ws[0] == a && ws[1] == b;
    case Merge(_, a, b, _) => assert ws[0] == a && ws[1] == b;
    case Split(_, a, b) => assert ws[0] == a && ws[1] == b;
    case _ =>
  }

  lemma {:induction false} PairLinksAre(pairs: seq<Pair>)
    ensures |PairLinks(pairs)| == |pairs|
    ensures forall i :: 0 <= i < |pairs| ==> PairLinks(pairs)[i] == (AtPort(pairs[i].0), AtPort(pairs[i].1))
    decreases |pairs|
  {
    if pairs != [] {
      PairLinksAre(pairs[..|pairs| - 1]);
    }
  }

  lemma PairsCopied<D(!new)>(al: Algebra<D>, t: Template, next: Wire, m: map<Wire, Wire>, copied: map<Wire, Port>,
                             pairs: seq<Pair>, rho: Wire -> D, tau: Wire -> D)
    requires Copy(t, next, m, copied, pairs) && TemplateSolved(al, t, rho)
    requires forall w :: w in m ==> tau(m[w]) == rho(w)
    ensures AllConsistent(al, PairLinks(pairs), tau)
    ensures forall f :: f in copied ==> Accepts(al, copied[f], tau(f), tau)
  {
    PairLinksAre(pairs);
    forall i | 0 <= i < |pairs| ensures Consistent(al, AtPort(pairs[i].0), AtPort(pairs[i].1), tau) {
      var (p, q) := t.pairs[i];
      assert Consistent(al, AtPort(p), AtPort(q), rho);
      var d :| AcceptsAt(al, AtPort(p), d, rho) && AcceptsAt(al, AtPort(q), d, rho);
      CopyAccepts(al, p, pairs[i].0, m, d, rho, tau);
      CopyAccepts(al, q, pairs[i].1, m, d, rho, tau);
      Linked(al, AtPort(pairs[i].0), AtPort(pairs[i].1), d, tau);
    }
    forall f | f in copied ensures Accepts(al, copied[f], tau(f), tau) {
      var w :| w in m && m[w] == f;
      CopyAccepts(al, t.target[w], copied[f], m, rho(w), rho, tau);
    }
  }

  // What an expansion needs of the algebra: that an erased input says nothing.
  ghost predicate SoundExpansion<D>(al: Algebra<D>, pair: Pair) {
    GraftOf(pair).1.Erasure? ==> al.nothing.None?
  }

  lemma LawfulAt<D(!new)>(al: Algebra<D>, lib: Library, agent: nat, t: D, u: D) returns (rho: Wire -> D)
    requires Lawful(al, lib) && agent in lib && al.graft(agent, t, u)
    ensures TemplateSolved(al, lib[agent], rho) && rho(lib[agent].input) == t && rho(lib[agent].output) == u
  {
    rho :| TemplateSolved(al, lib[agent], rho) && rho(lib[agent].input) == t && rho(lib[agent].output) == u;
  }

  lemma MoreConsistent<D(!new)>(al: Algebra<D>, links: seq<Link>, a: Link, b: Link, tau: Wire -> D)
    requires AllConsistent(al, links, tau) && Consistent(al, a.0, a.1, tau) && Consistent(al, b.0, b.1, tau)
    ensures AllConsistent(al, links + [a, b], tau)
  {
  }

  // The copy's interfaces meet what the graft stood between.
  lemma InterfacesSolve<D(!new)>(al: Algebra<D>, t: Template, graft: Port, port: Port, m: map<Wire, Wire>,
                                 pairs: seq<Pair>, next: Wire, rho: Wire -> D, sigma: Wire -> D, tau: Wire -> D)
    requires graft.Graft? && |graft.wires| == 1 && t.input in m && t.output in m && !port.Erasure?
    requires Below(AtPort(graft), next) && Below(AtPort(port), next) && Extends(sigma, tau, next)
    requires Accepts(al, port, rho(t.input), sigma) && rho(t.output) == sigma(graft.wires[0])
    requires tau(m[t.input]) == rho(t.input) && tau(m[t.output]) == rho(t.output)
    requires AllConsistent(al, PairLinks(pairs), tau)
    ensures AllConsistent(al, ExpansionLinks(t, graft, port, m, pairs), tau)
  {
    hide AllConsistent, PairLinks;
    var out := graft.wires[0];
    AcceptsSame(al, port, rho(t.input), sigma, tau, next);
    assert TargetCount(AtPort(graft), out) >= 1;
    Linked(al, AtWire(m[t.input]), AtPort(port), rho(t.input), tau);
    Linked(al, AtWire(m[t.output]), AtWire(out), sigma(out), tau);
    MoreConsistent(al, PairLinks(pairs), (AtWire(m[t.input]), AtPort(port)), (AtWire(m[t.output]), AtWire(out)), tau);
  }

  lemma ExpansionSolves<D(!new)>(al: Algebra<D>, lib: Library, s: System, move: Move, sigma: Wire -> D)
    returns (tau: Wire -> D)
    requires Linear(s) && move.Expand? && Enabled(lib, s, move) && Solves(al, s, sigma) && Lawful(al, lib)
    requires SoundExpansion(al, s.net.pairs[move.graft])
    ensures Extends(sigma, tau, s.next)
    ensures var (graft, port) := GraftOf(s.net.pairs[move.graft]);
            && AllConsistent(al, ExpansionLinks(lib[graft.agent], graft, port, move.m, move.pairs), tau)
            && (!port.Erasure? ==> forall f :: f in move.copied ==> Accepts(al, move.copied[f], tau(f), tau))
  {
    var Expand(i, m, copied, pairs, next) := move;
    var (graft, port) := GraftOf(s.net.pairs[i]);
    var template, out := lib[graft.agent], graft.wires[0];
    hide AllConsistent, Linear, TemplateSolved, Lawful, Copied, ReachedOnly, Done, Below, Solves;
    assert Consistent(al, AtPort(s.net.pairs[i].0), AtPort(s.net.pairs[i].1), sigma) by { PairSolves(al, s, i, sigma); }
    PairsAreBelow(s, i);
    var t :| AcceptsAt(al, AtPort(graft), t, sigma) && AcceptsAt(al, AtPort(port), t, sigma);
    if port.Erasure? {
      tau := sigma;
      ErasureAccepts(al, port, sigma(out), sigma);
      Linked(al, AtPort(port), AtWire(out), sigma(out), sigma);
      OneConsistent(al, (AtPort(port), AtWire(out)), sigma);
    } else {
      var rho := LawfulAt(al, lib, graft.agent, t, sigma(out));
      tau := Copied(m, rho, sigma);
      CopiedWires(m, rho, sigma, s.next);
      PairsCopied(al, template, s.next, m, copied, pairs, rho, tau);
      InterfacesSolve(al, template, graft, port, m, pairs, s.next, rho, sigma, tau);
    }
  }

  lemma PairSolves<D(!new)>(al: Algebra<D>, s: System, i: nat, sigma: Wire -> D)
    requires Solves(al, s, sigma) && i < |s.net.pairs|
    ensures Consistent(al, AtPort(s.net.pairs[i].0), AtPort(s.net.pairs[i].1), sigma)
  {
  }

  lemma ErasureAccepts<D>(al: Algebra<D>, p: Port, t: D, sigma: Wire -> D)
    requires p.Erasure? && al.nothing.None?
    ensures Accepts(al, p, t, sigma)
  {
  }

  lemma OneConsistent<D(!new)>(al: Algebra<D>, link: Link, sigma: Wire -> D)
    requires Consistent(al, link.0, link.1, sigma)
    ensures AllConsistent(al, [link], sigma)
  {
  }

  /** Expanding a graft keeps a solution, extended to the copied wires. */
  lemma ExpandSolves<D(!new)>(al: Algebra<D>, lib: Library, s: System, move: Move, sigma: Wire -> D)
    returns (tau: Wire -> D)
    requires Linear(s) && move.Expand? && Enabled(lib, s, move) && Solves(al, s, sigma) && Lawful(al, lib)
    requires SoundExpansion(al, s.net.pairs[move.graft])
    ensures Extends(sigma, tau, s.next) && Solves(al, Step(lib, s, move), tau)
  {
    var Expand(i, m, copied, pairs, next) := move;
    var (graft, port) := GraftOf(s.net.pairs[i]);
    var s' := Step(lib, s, move);
    tau := ExpansionSolves(al, lib, s, move, sigma);
    OthersSolve(al, s, i, ExpansionLinks(lib[graft.agent], graft, port, m, pairs), sigma, tau);
    forall w | w in Live(s'.net) ensures Accepts(al, s'.net.target[w], tau(w), tau) {
      if port.Erasure? || w !in copied {
        TargetsAreBelow(s, w);
        AcceptsSame(al, s.net.target[w], sigma(w), sigma, tau, s.next);
      }
    }
  }

  /* ---- Runs ---- */

  // A run that only does what the algebra makes sound.
  ghost predicate SoundRun<D(!new)>(al: Algebra<D>, states: seq<System>, moves: seq<Move>)
    requires |states| == |moves| + 1
  {
    forall i :: 0 <= i < |moves| ==>
      && (moves[i].Start? && moves[i].pair < |states[i].net.pairs| ==>
            var (l, r) := states[i].net.pairs[moves[i].pair];
            Sound(al, l, r))
      && (moves[i].Expand? && moves[i].graft < |states[i].net.pairs| ==>
            SoundExpansion(al, states[i].net.pairs[moves[i].graft]))
  }

  ghost predicate LinearLibrary(lib: Library) {
    forall a :: a in lib ==> LinearTemplate(lib[a])
  }

  lemma StepSolves<D(!new)>(al: Algebra<D>, lib: Library, s: System, move: Move, sigma: Wire -> D)
    returns (tau: Wire -> D)
    requires Linear(s) && Enabled(lib, s, move) && Solves(al, s, sigma) && Lawful(al, lib)
    requires move.Start? ==> Sound(al, s.net.pairs[move.pair].0, s.net.pairs[move.pair].1)
    requires move.Expand? ==> SoundExpansion(al, s.net.pairs[move.graft])
    ensures Extends(sigma, tau, s.next) && Solves(al, Step(lib, s, move), tau) && s.next <= Step(lib, s, move).next
  {
    match move
    case Start(p) => tau := StartSolves(al, lib, s, p, sigma);
    case Act(k) =>
      tau := sigma;
      ActSolves(al, lib, s, k, sigma);
    case Expand(_, _, _, _, _) => tau := ExpandSolves(al, lib, s, move, sigma);
  }

  /** A solution of the first state extends to every state of a sound run, with
      whatever expansions, and the wires that were there keep their data. */
  lemma {:induction false} RunSolves<D(!new)>(al: Algebra<D>, lib: Library, states: seq<System>, moves: seq<Move>,
                                              sigma: Wire -> D, i: nat) returns (tau: Wire -> D)
    requires Run(lib, states, moves) && SoundRun(al, states, moves) && i < |states|
    requires LinearLibrary(lib) && Lawful(al, lib)
    requires Linear(states[0]) && Solves(al, states[0], sigma)
    ensures Extends(sigma, tau, states[0].next) && Solves(al, states[i], tau)
    ensures Linear(states[i]) && states[0].next <= states[i].next
    decreases i
  {
    if i == 0 {
      tau := sigma;
    } else {
      var before := RunSolves(al, lib, states, moves, sigma, i - 1);
      RunsStayLinear(lib, states, moves, i);
      assert Enabled(lib, states[i - 1], moves[i - 1]);
      tau := StepSolves(al, lib, states[i - 1], moves[i - 1], before);
    }
  }
}
