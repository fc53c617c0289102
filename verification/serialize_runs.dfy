/** serialize_values run to the end: every schedule of the chain stops, with the
    tuple on its output, after each agent has called its function once. */
module SerializeRuns {
  import opened Options
  import opened Nets
  import opened Interactions
  import opened Machine
  import opened Solutions
  import opened Serialize
  import opened Tallies

  datatype Job = Job(join: Join, unit: Value, vs: seq<Operand>)

  function Size(b: Job): nat {
    |b.vs|
  }

  function Acc(b: Job, i: nat): Option<Value>
    requires i <= Size(b)
  {
    Folded(b.join, b.unit, b.vs, i)
  }

  /* ---- What may be where ---- */

  // A value, or the erasure that stands for none.
  predicate Delivers(p: Port, v: Option<Value>) {
    if v.Some? then p == ValuePort(v.value) else p.Erasure?
  }

  // Agent i turned around: it holds its accumulator on a wire of its own.
  ghost predicate Turned(b: Job, net: Net, p: Port, i: nat)
    requires i < Size(b)
  {
    && p.Merge? && p == Merge(b.join, p.operand, 2 * i + 1, true)
    && p.operand >= 2 * Size(b) && p.operand in Live(net)
    && Acc(b, i).Some? && net.target[p.operand] == ValuePort(Acc(b, i).value)
  }

  ghost predicate RightEnd(b: Job, net: Net, w: Wire, p: Port) {
    if w >= 2 * Size(b) then p.ValuePort? || p.Erasure?
    else if w % 2 == 0 then Delivers(p, b.vs[w / 2]) || p.Erasure? || Turned(b, net, p, w / 2)
    else Delivers(p, Acc(b, w / 2 + 1)) || (w / 2 + 1 < Size(b) && p == Agent(b.join, w / 2 + 1))
  }

  ghost predicate RightLink(b: Job, net: Net, link: Link) {
    && link.0.AtPort? != link.1.AtPort?
    && var w := Meets(link.0, link.1).value;
       RightEnd(b, net, w, Arriving(link)) && (w >= 2 * Size(b) ==> Arriving(link).Erasure?)
  }

  // The connects of an agent that found no operand.
  function Turning(b: Job, f: Wire, x: Value, i: nat): seq<Link> {
    [(AtWire(f), AtPort(ValuePort(x))), (AtWire(2 * i), AtPort(Merge(b.join, f, 2 * i + 1, true)))]
  }

  ghost predicate RightLinks(b: Job, net: Net, links: seq<Link>) {
    || (forall j :: 0 <= j < |links| ==> RightLink(b, net, links[j]))
    || exists f: Wire, i: nat ::
         f >= 2 * Size(b) && i < Size(b) && Acc(b, i).Some? && links == Turning(b, f, Acc(b, i).value, i)
  }

  ghost predicate Faces(b: Job, net: Net, data: Port, p: Port) {
    || ((data.ValuePort? || data.Erasure?) && p.Erasure?)
    || (&& p.Merge? && p.result < 2 * Size(b)
        && var i := p.result / 2;
           if p.swapped then Turned(b, net, p, i) && Delivers(data, b.vs[i])
           else p == Agent(b.join, i) && Delivers(data, Acc(b, i)))
  }

  ghost predicate RightPair(b: Job, net: Net, pair: Pair) {
    Faces(b, net, pair.0, pair.1) || Faces(b, net, pair.1, pair.0)
  }

  ghost predicate Right(b: Job, s: System) {
    && 2 * Size(b) <= s.next
    && (forall w :: w in Live(s.net) ==> RightEnd(b, s.net, w, s.net.target[w]))
    && (forall i :: 0 <= i < |s.net.pairs| ==> RightPair(b, s.net, s.net.pairs[i]))
    && (forall k :: 0 <= k < |s.inflight| ==> RightLinks(b, s.net, s.inflight[k]))
  }

  /* ---- Every wire of the chain is owed one delivery ---- */

  // What comes to w is told from what its agent sends back there by being a value.
  predicate Exact(b: Job, w: Wire) {
    w % 2 == 1 || w >= 2 * Size(b) || b.vs[w / 2].Some?
  }

  // The agents that will deliver to w, and the deliveries on their way.
  function Owed(b: Job, w: Wire): Weight {
    Weight((p: Port) => if p.Merge? && p.result == w then 1 else 0,
           (v: Wire, p: Port) =>
             if v == w && (p.ValuePort? || ((w % 2 == 1 || !Exact(b, w)) && p.Erasure?)) then 1 else 0)
  }

  function Used(s: System, w: Wire): nat {
    if w in s.net.spent then 1 else 0
  }

  // A delivery to w is due, or done; only one, where it can be told.
  ghost predicate Owes(b: Job, s: System, w: Wire) {
    var n := Tally(Owed(b, w), s) + Used(s, w);
    n >= 1 && (Exact(b, w) ==> n == 1)
  }

  ghost predicate Whole(b: Job, s: System) {
    forall w: Wire :: w < 2 * Size(b) ==> Owes(b, s, w)
  }

  ghost predicate Good(b: Job, s: System) {
    Linear(s) && Right(b, s) && Whole(b, s) && (Size(b) > 0 ==> OneEnd(s, 2 * Size(b) - 1))
  }

  /* ---- Starting a rule ---- */

  // The links of the rule that p and data start, whichever side they are on.
  lemma RuleOf(b: Job, s: System, i: nat) returns (data: Port, p: Port)
    requires Linear(s) && Right(b, s) && i < |s.net.pairs|
    ensures Faces(b, s.net, data, p) && (s.net.pairs[i] == (data, p) || s.net.pairs[i] == (p, data))
    ensures Enabled(map[], s, Start(i))
    ensures var (l, r) := s.net.pairs[i];
            var links := Interact(l, r, Observed(s.net, l, r), s.next).value;
            if p.Erasure? then links == []
            else if data.Erasure? then links == Erase([p.operand, p.result])
            else Observed(s.net, l, r) == (if p.operand in s.net.target then Some(s.net.target[p.operand]) else None)
                 && links == ExtMerge(p, data.value, Observed(s.net, l, r), s.next)
  {
    var (l, r) := s.net.pairs[i];
    assert RightPair(b, s.net, s.net.pairs[i]);
    if Faces(b, s.net, l, r) {
      data, p := l, r;
    } else {
      data, p := r, l;
    }
    assert Erase([]) == [];
    if p.Erasure? {
      assert Wires(data) == [] && Wires(p) == [];
    } else if data.Erasure? {
      assert Wires(data) == [] && Wires(p) == [p.operand, p.result];
      assert Erase(Wires(data)) == [];
      assert [] + Erase(Wires(p)) == Erase(Wires(p)) == Erase(Wires(p)) + [];
    }
  }

  // What the agent saw is the operand.
  lemma SeesTheOperand(b: Job, s: System, i: nat, data: Port, p: Port)
    requires Linear(s) && Right(b, s) && i < |s.net.pairs| && Faces(b, s.net, data, p) && p.Merge?
    requires s.net.pairs[i] == (data, p) || s.net.pairs[i] == (p, data)
    ensures p.operand in s.net.target ==> p.operand in Live(s.net)
    ensures p.operand in s.net.target && s.net.target[p.operand].ValuePort? && !p.swapped ==>
              b.vs[p.result / 2] == Some(s.net.target[p.operand].value)
  {
    var w := p.operand;
    assert LinearAt(s.net, w, InflightCount(s.inflight, w));
    PairsCountRemove(s.net.pairs, i, w);
    assert PortCount(p, w) >= 1;
    if w in s.net.target && !p.swapped {
      assert RightEnd(b, s.net, w, s.net.target[w]);
      assert w == 2 * (p.result / 2);
    }
  }

  lemma EraseTwo(a: Wire, c: Wire)
    ensures Erase([a, c]) == [(AtPort(Erasure(false)), AtWire(a)), (AtPort(Erasure(false)), AtWire(c))]
  {
    assert [a, c][1..] == [c] && [c][1..] == [];
    assert Erase([c]) == [(AtPort(Erasure(false)), AtWire(c))] + Erase([]);
  }

  // Agent i gets two values.
  predicate Due(b: Job, i: nat)
    requires i < Size(b)
  {
    Acc(b, i).Some? && b.vs[i].Some?
  }

  /* The four things that can happen to an active pair. */
  datatype Rule = Nothing | Erases | Calls | Turns

  ghost function RuleAt(s: System, data: Port, p: Port): Rule {
    if !p.Merge? then Nothing
    else if !data.ValuePort? then Erases
    else if p.operand in s.net.target && s.net.target[p.operand].ValuePort? then Calls
    else Turns
  }

  function Outcome(b: Job, i: nat): Port
    requires i < Size(b)
  {
    if Acc(b, i + 1).Some? then ValuePort(Acc(b, i + 1).value) else Erasure(true)
  }

  // The connects of each, given what the agent is and what it saw.
  ghost predicate Ruled(b: Job, s: System, data: Port, p: Port, links: seq<Link>)
    requires Faces(b, s.net, data, p)
  {
    match RuleAt(s, data, p)
    case Nothing => links == []
    case Erases =>
      && !Due(b, p.result / 2)
      && links == [(AtPort(Erasure(false)), AtWire(p.operand)), (AtPort(Erasure(false)), AtWire(p.result))]
    case Calls =>
      && Due(b, p.result / 2)
      && links == [(AtWire(p.operand), AtPort(Erasure(false))), (AtWire(p.result), AtPort(Outcome(b, p.result / 2)))]
    case Turns =>
      && !p.swapped && data == ValuePort(Acc(b, p.result / 2).value)
      && links == Turning(b, s.next, data.value, p.result / 2)
  }

  lemma RuleLinks(b: Job, s: System, i: nat) returns (data: Port, p: Port, links: seq<Link>)
    requires Linear(s) && Right(b, s) && i < |s.net.pairs|
    ensures Faces(b, s.net, data, p) && (s.net.pairs[i] == (data, p) || s.net.pairs[i] == (p, data))
    ensures Enabled(map[], s, Start(i))
    ensures var (l, r) := s.net.pairs[i]; links == Interact(l, r, Observed(s.net, l, r), s.next).value
    ensures Ruled(b, s, data, p, links)
  {
    data, p := RuleOf(b, s, i);
    var (l, r) := s.net.pairs[i];
    links := Interact(l, r, Observed(s.net, l, r), s.next).value;
    if p.Merge? {
      SeesTheOperand(b, s, i, data, p);
      if !data.ValuePort? {
        EraseTwo(p.operand, p.result);
      }
    }
  }

  lemma SameTargets(b: Job, net: Net, net': Net)
    requires net.target == net'.target && net.spent == net'.spent
    ensures forall w, p :: RightEnd(b, net, w, p) <==> RightEnd(b, net', w, p)
    ensures forall data, p :: Faces(b, net, data, p) <==> Faces(b, net', data, p)
    ensures forall links :: RightLinks(b, net, links) <==> RightLinks(b, net', links)
  {
    assert Live(net) == Live(net');
  }

  lemma StartKeepsRight(b: Job, s: System, i: nat)
    requires Linear(s) && Right(b, s) && i < |s.net.pairs|
    ensures Enabled(map[], s, Start(i)) && Right(b, Step(map[], s, Start(i)))
  {
    var data, p, links := RuleLinks(b, s, i);
    var s' := Step(map[], s, Start(i));
    SameTargets(b, s.net, s'.net);
    assert Live(s'.net) == Live(s.net);
    StartLinksRight(b, s, data, p, links);
    forall k | 0 <= k < |s'.inflight| ensures RightLinks(b, s'.net, s'.inflight[k]) {
      assert k < |s.inflight| ==> s'.inflight[k] == s.inflight[k];
    }
  }

  lemma StartLinksRight(b: Job, s: System, data: Port, p: Port, links: seq<Link>)
    requires Faces(b, s.net, data, p) && 2 * Size(b) <= s.next
    requires Ruled(b, s, data, p, links)
    ensures RightLinks(b, s.net, links)
  {
    if p.Merge? {
      var i := p.result / 2;
      assert p.result == 2 * i + 1 && (2 * i) / 2 == i && (2 * i + 1) / 2 == i;
      if !RuleAt(s, data, p).Turns? {
        assert RightLink(b, s.net, links[0]);
        assert RightLink(b, s.net, links[1]);
      }
    }
  }

  lemma RuleOwes(b: Job, s: System, data: Port, p: Port, links: seq<Link>, w: Wire)
    requires Faces(b, s.net, data, p) && Ruled(b, s, data, p, links) && w < 2 * Size(b) <= s.next
    ensures LinksTally(Owed(b, w), links) >= PairWeight(Owed(b, w), (data, p))
    ensures Exact(b, w) ==> LinksTally(Owed(b, w), links) == PairWeight(Owed(b, w), (data, p))
  {
    hide Folded;
    if p.Merge? {
      TwoLinksTally(Owed(b, w), links[0], links[1]);
      assert p.result % 2 == 1;
    }
  }

  // Starting a rule keeps what is owed to every wire of the chain.
  lemma StartKeepsWhole(b: Job, s: System, i: nat)
    requires Linear(s) && Right(b, s) && Whole(b, s) && i < |s.net.pairs|
    ensures Enabled(map[], s, Start(i)) && Whole(b, Step(map[], s, Start(i)))
  {
    hide Tally, LinksTally, Faces, Ruled, Right, Linear, Interact;
    var data, p, links := RuleLinks(b, s, i);
    assert 2 * Size(b) <= s.next by { LongEnough(b, s); }
    forall w: Wire | w < 2 * Size(b)
      ensures Owes(b, Step(map[], s, Start(i)), w)
    {
      assert Owes(b, s, w);
      StartTally(Owed(b, w), map[], s, i);
      RuleOwes(b, s, data, p, links, w);
    }
  }

  lemma LongEnough(b: Job, s: System)
    requires Right(b, s)
    ensures 2 * Size(b) <= s.next
  {
  }

  /* ---- Connecting ---- */

  lemma TurnedStays(b: Job, s: System, k: nat, v: Wire, p: Port, i: nat)
    requires Linear(s) && Enabled(map[], s, Act(k)) && Meets(s.inflight[k][0].0, s.inflight[k][0].1) == Some(v)
    requires i < Size(b) && Turned(b, s.net, p, i) && (v in s.net.target ==> PortCount(p, v) == 0)
    ensures Turned(b, Step(map[], s, Act(k)).net, p, i)
  {
    var s' := Step(map[], s, Act(k));
    assert p.operand != v;
    assert p.operand in Live(s'.net);
  }

  lemma EndStays(b: Job, s: System, k: nat, v: Wire, w: Wire, p: Port)
    requires Linear(s) && Enabled(map[], s, Act(k)) && Meets(s.inflight[k][0].0, s.inflight[k][0].1) == Some(v)
    requires RightEnd(b, s.net, w, p) && (v in s.net.target ==> PortCount(p, v) == 0)
    ensures RightEnd(b, Step(map[], s, Act(k)).net, w, p)
  {
    if w < 2 * Size(b) && w % 2 == 0 && Turned(b, s.net, p, w / 2) {
      TurnedStays(b, s, k, v, p, w / 2);
    }
  }

  lemma FacesStays(b: Job, s: System, k: nat, v: Wire, data: Port, p: Port)
    requires Linear(s) && Enabled(map[], s, Act(k)) && Meets(s.inflight[k][0].0, s.inflight[k][0].1) == Some(v)
    requires Faces(b, s.net, data, p) && (v in s.net.target ==> PortCount(p, v) == 0)
    ensures Faces(b, Step(map[], s, Act(k)).net, data, p)
  {
    if p.Merge? && p.result < 2 * Size(b) && p.swapped && Turned(b, s.net, p, p.result / 2) {
      TurnedStays(b, s, k, v, p, p.result / 2);
    }
  }

  lemma OtherLinksStay(b: Job, s: System, k: nat, v: Wire, k': nat)
    requires Linear(s) && Right(b, s) && Enabled(map[], s, Act(k))
    requires Meets(s.inflight[k][0].0, s.inflight[k][0].1) == Some(v) && k' < |s.inflight| && k' != k
    ensures RightLinks(b, Step(map[], s, Act(k)).net, s.inflight[k'])
  {
    var links := s.inflight[k'];
    assert RightLinks(b, s.net, links);
    if forall j :: 0 <= j < |links| ==> RightLink(b, s.net, links[j]) {
      forall j | 0 <= j < |links| ensures RightLink(b, Step(map[], s, Act(k)).net, links[j]) {
        if v in s.net.target {
          NotInOthers(s, k, v, k', j);
        }
        EndStays(b, s, k, v, Meets(links[j].0, links[j].1).value, Arriving(links[j]));
      }
    }
  }

  // The connect k is about to make.
  function Next(s: System, k: nat): Link
    requires Enabled(map[], s, Act(k))
  {
    s.inflight[k][0]
  }

  // An agent that turns finds its fresh wire unset.
  lemma TurnsOnAFreshWire(b: Job, s: System, k: nat, f: Wire, x: Value, i: nat)
    requires Linear(s) && k < |s.inflight| && s.inflight[k] == Turning(b, f, x, i)
    ensures f !in s.net.target
  {
    assert LinearAt(s.net, f, InflightCount(s.inflight, f));
    InflightUpdate(s.inflight, k, [], f);
    TwoLinks(s.inflight[k][0], s.inflight[k][1], f);
  }

  lemma RestStays(b: Job, s: System, k: nat, v: Wire)
    requires Linear(s) && Right(b, s) && Enabled(map[], s, Act(k)) && Meets(Next(s, k).0, Next(s, k).1) == Some(v)
    ensures RightLinks(b, Step(map[], s, Act(k)).net, s.inflight[k][1..])
  {
    var links := s.inflight[k];
    var net' := Step(map[], s, Act(k)).net;
    assert RightLinks(b, s.net, links);
    if forall j :: 0 <= j < |links| ==> RightLink(b, s.net, links[j]) {
      forall j | 0 <= j < |links[1..]| ensures RightLink(b, net', links[1..][j]) {
        if v in s.net.target {
          NotInOthers(s, k, v, k, j + 1);
        }
        EndStays(b, s, k, v, Meets(links[j + 1].0, links[j + 1].1).value, Arriving(links[j + 1]));
      }
    } else {
      var f: Wire, i: nat :|
        f >= 2 * Size(b) && i < Size(b) && Acc(b, i).Some? && links == Turning(b, f, Acc(b, i).value, i);
      TurnsOnAFreshWire(b, s, k, f, Acc(b, i).value, i);
      assert v !in s.net.spent;
      assert f in Live(net') && Turned(b, net', links[1].1.port, i);
      assert links[1..] == [links[1]] && (2 * i) / 2 == i;
      assert RightLink(b, net', links[1]);
    }
  }

  // The connect is a right one, or the first of an agent that turns.
  lemma NextIsRight(b: Job, s: System, k: nat) returns (v: Wire)
    requires Linear(s) && Right(b, s) && Enabled(map[], s, Act(k))
    ensures Meets(Next(s, k).0, Next(s, k).1) == Some(v) && v !in s.net.spent
    ensures RightEnd(b, s.net, v, Arriving(Next(s, k)))
    ensures v in s.net.target ==> RightLink(b, s.net, Next(s, k)) && PortCount(Arriving(Next(s, k)), v) == 0
  {
    var links := s.inflight[k];
    assert RightLinks(b, s.net, links);
    ActKeepsLinear(map[], s, k);
    if forall j :: 0 <= j < |links| ==> RightLink(b, s.net, links[j]) {
      assert RightLink(b, s.net, links[0]);
      v := Meets(links[0].0, links[0].1).value;
      if v in s.net.target {
        LastReference(s, k, v);
      }
    } else {
      var f: Wire, i: nat :|
        f >= 2 * Size(b) && i < Size(b) && Acc(b, i).Some? && links == Turning(b, f, Acc(b, i).value, i);
      TurnsOnAFreshWire(b, s, k, f, Acc(b, i).value, i);
      v := f;
    }
  }

  lemma OwedRefers(b: Job, w: Wire)
    ensures RefersTo(Owed(b, w), w)
  {
  }

  // Nothing more is due on a wire that is used up.
  lemma UsedUp(b: Job, s: System, w: Wire)
    requires Linear(s) && w in s.net.spent
    ensures Tally(Owed(b, w), s) == 0
  {
    hide Tally, Owed;
    OwedRefers(b, w);
    assert LinearAt(s.net, w, InflightCount(s.inflight, w));
    TallyBound(Owed(b, w), s, w);
  }

  lemma MeetingUses(s: System, k: nat, v: Wire)
    requires Linear(s) && Enabled(map[], s, Act(k)) && MeetsSet(s, k, v)
    ensures Linear(Step(map[], s, Act(k))) && v in Step(map[], s, Act(k)).net.spent && v !in s.net.spent
  {
    ActKeepsLinear(map[], s, k);
  }

  // Whoever meets on a wire of the chain, exactly one of the two delivers.
  lemma OneDelivers(b: Job, s: System, k: nat, v: Wire)
    requires Linear(s) && Whole(b, s) && Enabled(map[], s, Act(k)) && MeetsSet(s, k, v)
    requires v < 2 * Size(b) && Exact(b, v)
    ensures LostAt(Owed(b, v), s.net, Next(s, k)) == 1
  {
    hide Tally, Owed, Linear, Step, Enabled, LostAt, Exact;
    MeetingUses(s, k, v);
    ActTally(Owed(b, v), map[], s, k);
    assert Owes(b, s, v);
    UsedUp(b, Step(map[], s, Act(k)), v);
  }

  lemma NewPairRight(b: Job, s: System, k: nat, v: Wire)
    requires Linear(s) && Right(b, s) && Whole(b, s) && Enabled(map[], s, Act(k)) && MeetsSet(s, k, v)
    requires v !in s.net.spent && RightLink(b, s.net, Next(s, k))
    ensures RightPair(b, s.net, (s.net.target[v], Arriving(Next(s, k))))
  {
    hide Folded, Tally, Step;
    var p, q := s.net.target[v], Arriving(Next(s, k));
    assert v in Live(s.net) && RightEnd(b, s.net, v, p);
    if v < 2 * Size(b) {
      if v % 2 == 1 {
        OneDelivers(b, s, k, v);
        assert (2 * (v / 2 + 1) + 1) / 2 == v / 2 + 1;
      } else {
        assert (2 * (v / 2) + 1) / 2 == v / 2;
        if Exact(b, v) {
          OneDelivers(b, s, k, v);
        } else if Turned(b, s.net, p, v / 2) && Turned(b, s.net, q, v / 2) {
          NotTwoAgents(b, s, k, v);
        }
      }
    }
  }

  // No output is owed by two agents.
  lemma NotTwoAgents(b: Job, s: System, k: nat, v: Wire)
    requires Linear(s) && Whole(b, s) && MeetsSet(s, k, v) && v in Live(s.net)
    requires s.net.target[v].Merge? && Arriving(s.inflight[k][0]).Merge?
    requires s.net.target[v].result == Arriving(s.inflight[k][0]).result < 2 * Size(b)
    ensures !Exact(b, s.net.target[v].result)
  {
    var w := s.net.target[v].result;
    var wt := Owed(b, w);
    assert Owes(b, s, w);
    MapTallyRemove(wt, Live(s.net), v);
    InflightTallyUpdate(wt, s.inflight, k, []);
  }

  lemma ActKeepsRight(b: Job, s: System, k: nat)
    requires Linear(s) && Right(b, s) && Whole(b, s) && Enabled(map[], s, Act(k))
    ensures Right(b, Step(map[], s, Act(k)))
  {
    var v := NextIsRight(b, s, k);
    var s' := Step(map[], s, Act(k));
    var p := Arriving(Next(s, k));
    assert s'.net == ConnectWireToPort(s.net, v, p);
    if v in s.net.target {
      LastReference(s, k, v);
      NewPairRight(b, s, k, v);
    }
    forall w | w in Live(s'.net) ensures RightEnd(b, s'.net, w, s'.net.target[w]) {
      if v in s.net.target {
        NotInTargets(s.net, w, v);
      }
      EndStays(b, s, k, v, w, s'.net.target[w]);
    }
    forall i | 0 <= i < |s'.net.pairs| ensures RightPair(b, s'.net, s'.net.pairs[i]) {
      PairStays(b, s, k, v, i);
    }
    forall i | 0 <= i < |s'.inflight| ensures RightLinks(b, s'.net, s'.inflight[i]) {
      if i == k {
        RestStays(b, s, k, v);
      } else {
        OtherLinksStay(b, s, k, v, i);
      }
    }
  }

  lemma PairStays(b: Job, s: System, k: nat, v: Wire, i: nat)
    requires Linear(s) && Right(b, s) && Enabled(map[], s, Act(k)) && Meets(Next(s, k).0, Next(s, k).1) == Some(v)
    requires var net' := Step(map[], s, Act(k)).net;
             net' == ConnectWireToPort(s.net, v, Arriving(Next(s, k))) && i < |net'.pairs|
    requires v in s.net.target ==>
               MeetsSet(s, k, v) && PortCount(Arriving(Next(s, k)), v) == 0
               && RightPair(b, s.net, (s.net.target[v], Arriving(Next(s, k))))
    ensures var net' := Step(map[], s, Act(k)).net; RightPair(b, net', net'.pairs[i])
  {
    var pair := Step(map[], s, Act(k)).net.pairs[i];
    assert RightPair(b, s.net, pair);
    if v in s.net.target {
      LastReference(s, k, v);
      if i < |s.net.pairs| {
        NotInPairs(s.net, i, v);
      } else {
        NotInTargets(s.net, v, v);
      }
    }
    if Faces(b, s.net, pair.0, pair.1) {
      FacesStays(b, s, k, v, pair.0, pair.1);
    } else {
      FacesStays(b, s, k, v, pair.1, pair.0);
    }
  }

  lemma ActKeepsWhole(b: Job, s: System, k: nat)
    requires Linear(s) && Right(b, s) && Whole(b, s) && Enabled(map[], s, Act(k))
    ensures Whole(b, Step(map[], s, Act(k)))
  {
    var v := NextIsRight(b, s, k);
    var s' := Step(map[], s, Act(k));
    forall w: Wire | w < 2 * Size(b) ensures Owes(b, s', w) {
      assert Owes(b, s, w);
      ActTally(Owed(b, w), map[], s, k);
      if v in s.net.target && v == w && Exact(b, w) {
        OneDelivers(b, s, k, w);
      }
    }
  }

  lemma StepKeepsGood(b: Job, s: System, move: Move)
    requires Good(b, s) && Enabled(map[], s, move)
    ensures Good(b, Step(map[], s, move)) && !move.Expand?
  {
    hide Linear, Right, Whole, OneEnd;
    match move
    case Start(i) =>
      StartKeepsLinear(map[], s, i);
      StartKeepsRight(b, s, i);
      StartKeepsWhole(b, s, i);
      if Size(b) > 0 {
        StartKeepsEnd(map[], s, i, 2 * Size(b) - 1);
      }
    case Act(k) =>
      ActKeepsLinear(map[], s, k);
      ActKeepsRight(b, s, k);
      ActKeepsWhole(b, s, k);
      if Size(b) > 0 {
        ActKeepsEnd(map[], s, k, 2 * Size(b) - 1);
      }
    case Expand(_, _, _, _, _) =>
  }

  /* ---- The chain as built ---- */

  ghost predicate Starts(b: Job, s: System) {
    s == Loaded(b.join, b.unit, b.vs)
  }

  // A tally of the chain: its pair, the agents waiting on accumulators, and the
  // operands on their way.
  function AgentWeight(b: Job, wt: Weight, i: nat): nat {
    if i == 0 then PairWeight(wt, (ValuePort(b.unit), Agent(b.join, 0)))
    else EndWeight(wt, 2 * i - 1, Agent(b.join, i))
  }

  function ChainWeight(b: Job, wt: Weight, count: nat): nat {
    if count == 0 then 0 else ChainWeight(b, wt, count - 1) + AgentWeight(b, wt, count - 1)
  }

  function OperandsWeight(wt: Weight, vs: seq<Operand>): nat {
    if vs == [] then 0
    else OperandsWeight(wt, vs[..|vs| - 1]) + EndWeight(wt, 2 * (|vs| - 1), Sent(vs[|vs| - 1]))
  }

  lemma {:induction false} ChainTally(b: Job, wt: Weight, count: nat)
    ensures NetTally(wt, Serialize.Chain(b.join, b.unit, count)) == ChainWeight(b, wt, count)
  {
    if count == 0 {
      assert Live(Serialize.Chain(b.join, b.unit, 0)) == map[];
    } else {
      var i := count - 1;
      ChainTally(b, wt, i);
      ChainShape(b.join, b.unit, i);
      ConnectTally(wt, Serialize.Chain(b.join, b.unit, i), (Accumulator(b.unit, i), AtPort(Agent(b.join, i))));
    }
  }

  lemma {:induction false} ArrivalsTally(wt: Weight, vs: seq<Operand>)
    ensures InflightTally(wt, Arrivals(vs)) == OperandsWeight(wt, vs)
    decreases |vs|
  {
    if vs != [] {
      var n := |vs| - 1;
      ArrivalsTally(wt, vs[..n]);
      var links: seq<Link> := [(AtPort(Sent(vs[n])), AtWire(2 * n))];
      assert links[1..] == [];
      InflightTallyAdd(wt, Arrivals(vs[..n]), links);
    }
  }

  lemma {:induction false} ChainOwes(b: Job, w: Wire, count: nat)
    ensures ChainWeight(b, Owed(b, w), count) == if w < 2 * count && w % 2 == 1 then 1 else 0
  {
    if count > 0 {
      ChainOwes(b, w, count - 1);
    }
  }

  lemma {:induction false} OperandsOwed(b: Job, w: Wire, n: nat)
    requires n <= Size(b)
    ensures OperandsWeight(Owed(b, w), b.vs[..n]) == if w < 2 * n && w % 2 == 0 then 1 else 0
    decreases n
  {
    if n > 0 {
      assert b.vs[..n][..n - 1] == b.vs[..n - 1];
      OperandsOwed(b, w, n - 1);
    }
  }

  lemma LoadedIsWhole(b: Job)
    ensures Whole(b, Loaded(b.join, b.unit, b.vs))
  {
    var s := Loaded(b.join, b.unit, b.vs);
    ChainShape(b.join, b.unit, Size(b));
    forall w: Wire | w < 2 * Size(b) ensures Owes(b, s, w) {
      ChainTally(b, Owed(b, w), Size(b));
      ChainOwes(b, w, Size(b));
      ArrivalsTally(Owed(b, w), b.vs);
      OperandsOwed(b, w, Size(b));
      assert b.vs[..Size(b)] == b.vs;
    }
  }

  lemma LoadedIsRight(b: Job)
    ensures Right(b, Loaded(b.join, b.unit, b.vs))
  {
    var s := Loaded(b.join, b.unit, b.vs);
    ChainShape(b.join, b.unit, Size(b));
    ArrivalsShape(b.vs);
    forall k | 0 <= k < |s.inflight| ensures RightLinks(b, s.net, s.inflight[k]) {
      assert (2 * k) / 2 == k;
      assert RightLink(b, s.net, s.inflight[k][0]);
    }
    if Size(b) > 0 {
      assert RightPair(b, s.net, (ValuePort(b.unit), Agent(b.join, 0)));
    }
  }

  lemma LoadedIsGood(b: Job)
    ensures Good(b, Loaded(b.join, b.unit, b.vs))
  {
    LoadedIsLinear(b.join, b.unit, b.vs);
    LoadedIsRight(b);
    LoadedIsWhole(b);
    if Size(b) > 0 {
      ChainShape(b.join, b.unit, Size(b));
      ChainCount(b.join, b.unit, Size(b), 2 * Size(b) - 1);
      ArrivalsCount(b.vs, 2 * Size(b) - 1);
    }
  }

  lemma {:induction false} RunIsGood(b: Job, states: seq<System>, moves: seq<Move>, i: nat)
    requires Run(map[], states, moves) && Starts(b, states[0]) && i < |states|
    ensures Good(b, states[i]) && (i < |moves| ==> !moves[i].Expand?)
    decreases i
  {
    if i == 0 {
      LoadedIsGood(b);
    } else {
      RunIsGood(b, states, moves, i - 1);
      assert Enabled(map[], states[i - 1], moves[i - 1]);
      StepKeepsGood(b, states[i - 1], moves[i - 1]);
    }
    if i < |moves| {
      assert Enabled(map[], states[i], moves[i]);
      StepKeepsGood(b, states[i], moves[i]);
    }
  }

  /* ---- It stops ---- */

  const EFFORT: Weight :=
    Weight((p: Port) => if !p.Merge? then 1 else if p.swapped then 4 else 8, (v: Wire, p: Port) => 0)

  ghost function Effort(s: System): nat {
    Tally(EFFORT, s) + Coming(s.inflight)
  }

  lemma RuleTakesEffort(b: Job, s: System, data: Port, p: Port, links: seq<Link>)
    requires Faces(b, s.net, data, p) && Ruled(b, s, data, p, links)
    ensures LinksTally(EFFORT, links) + |links| < PairWeight(EFFORT, (data, p))
  {
    hide Folded;
    if p.Merge? {
      TwoLinksTally(EFFORT, links[0], links[1]);
    }
  }

  lemma StepTakesEffort(b: Job, s: System, move: Move)
    requires Good(b, s) && Enabled(map[], s, move) && !move.Expand?
    ensures Effort(Step(map[], s, move)) < Effort(s)
  {
    match move
    case Start(i) => StartTakesEffort(b, s, i);
    case Act(k) =>
      ActTally(EFFORT, map[], s, k);
      ComingUpdate(s.inflight, k, s.inflight[k][1..]);
  }

  lemma StartTakesEffort(b: Job, s: System, i: nat)
    requires Linear(s) && Right(b, s) && Enabled(map[], s, Start(i))
    ensures Effort(Step(map[], s, Start(i))) < Effort(s)
  {
    hide Tally, LinksTally, Faces, Ruled, Right, Linear, Interact, Coming;
    var data, p, links := RuleLinks(b, s, i);
    StartTally(EFFORT, map[], s, i);
    ComingAdd(s.inflight, links);
    RuleTakesEffort(b, s, data, p, links);
  }

  lemma {:induction false} ChainEffort(b: Job, count: nat)
    ensures ChainWeight(b, EFFORT, count) == 8 * count + if count > 0 then 1 else 0
  {
    if count > 0 {
      ChainEffort(b, count - 1);
    }
  }

  lemma {:induction false} OperandsEffort(vs: seq<Operand>)
    ensures OperandsWeight(EFFORT, vs) == |vs| && Coming(Arrivals(vs)) == |vs|
    decreases |vs|
  {
    if vs != [] {
      OperandsEffort(vs[..|vs| - 1]);
      ComingAdd(Arrivals(vs[..|vs| - 1]), [(AtPort(Sent(vs[|vs| - 1])), AtWire(2 * (|vs| - 1)))]);
    }
  }

  lemma {:induction false} EffortRunsOut(b: Job, states: seq<System>, moves: seq<Move>, i: nat)
    requires Run(map[], states, moves) && Starts(b, states[0]) && i < |states|
    ensures i + Effort(states[i]) <= Effort(states[0])
    decreases i
  {
    if i > 0 {
      EffortRunsOut(b, states, moves, i - 1);
      RunIsGood(b, states, moves, i - 1);
      assert Enabled(map[], states[i - 1], moves[i - 1]);
      RunIsGood(b, states, moves, i - 1);
      StepTakesEffort(b, states[i - 1], moves[i - 1]);
    }
  }

  /** No schedule of n operands takes more than 10n + 1 steps. */
  lemma ChainStops(b: Job, states: seq<System>, moves: seq<Move>)
    requires Run(map[], states, moves) && Starts(b, states[0])
    ensures |moves| <= 10 * Size(b) + 1
  {
    EffortRunsOut(b, states, moves, |moves|);
    ChainTally(b, EFFORT, Size(b));
    ChainEffort(b, Size(b));
    ArrivalsTally(EFFORT, b.vs);
    OperandsEffort(b.vs);
  }

  /* ---- Where it stops ---- */

  lemma NothingIsPending(b: Job, s: System)
    requires Good(b, s) && Quiescent(map[], s)
    ensures s.net.pairs == []
    ensures forall wt :: Tally(wt, s) == MapTally(wt, Live(s.net))
  {
    if s.net.pairs != [] {
      StartKeepsRight(b, s, 0);
    }
    forall k | 0 <= k < |s.inflight| ensures s.inflight[k] == [] {
      assert !Enabled(map[], s, Act(k));
    }
    forall wt ensures Tally(wt, s) == MapTally(wt, Live(s.net)) {
      EmptyTally(wt, s.inflight);
    }
  }

  // How many agents with this output there still are.
  function Agents(w: Wire): Weight {
    Weight((p: Port) => if p.Merge? && p.result == w then 1 else 0, (v: Wire, p: Port) => 0)
  }

  // What is owed to a wire that is set, at rest, is on some wire.
  lemma StillOwed(b: Job, s: System, u: Wire) returns (v: Wire)
    requires Good(b, s) && Quiescent(map[], s) && u in Live(s.net) && u < 2 * Size(b)
    ensures v in Live(s.net) && EndWeight(Owed(b, u), v, s.net.target[v]) > 0
  {
    hide Tally, Owed, Exact;
    NothingIsPending(b, s);
    assert Owes(b, s, u);
    v := MapTallyWitness(Owed(b, u), Live(s.net));
  }

  lemma {:induction false} NoAgentIsLeft(b: Job, s: System, i: nat)
    requires Good(b, s) && Quiescent(map[], s) && i < Size(b)
    ensures forall u :: u in Live(s.net) ==> !(s.net.target[u].Merge? && s.net.target[u].result == 2 * i + 1)
    decreases i
  {
    hide Folded, Tally, Linear, Whole, OneEnd, Quiescent;
    forall u | u in Live(s.net) && s.net.target[u].Merge? && s.net.target[u].result == 2 * i + 1 ensures false {
      assert RightEnd(b, s.net, u, s.net.target[u]);
      assert u < 2 * Size(b);
      var v := StillOwed(b, s, u);
      if u % 2 == 1 {
        assert u == 2 * (u / 2) + 1 && u / 2 + 1 == i;
        NoAgentIsLeft(b, s, i - 1);
      }
    }
  }

  /** Where no step is left, the fold of all operands is on the output; or an
      erasure, exactly where join raised or an operand was erased on the way. */
  lemma ChainDelivers(b: Job, s: System)
    requires Good(b, s) && Quiescent(map[], s) && Size(b) > 0
    ensures var out := 2 * Size(b) - 1;
            out in Live(s.net) && Delivers(s.net.target[out], Acc(b, Size(b)))
  {
    var i := Size(b) - 1;
    var out := 2 * i + 1;
    NothingIsPending(b, s);
    NoAgentIsLeft(b, s, i);
    assert Owes(b, s, out);
    var v := MapTallyWitness(Owed(b, out), Live(s.net));
    assert RightEnd(b, s.net, out, s.net.target[out]);
  }

  /* ---- What it calls ---- */

  // The function call that a move makes, if any: whose output, and on what.
  function CallMade(s: System, move: Move): Option<(Wire, (Value, Value))> {
    if move.Start? && move.pair < |s.net.pairs| then
      var (l, r) := s.net.pairs[move.pair];
      var (agent, data) := if l.ValuePort? then (r, l) else (l, r);
      var seen := Observed(s.net, l, r);
      if agent.Merge? && data.ValuePort? && seen.Some? && seen.value.ValuePort? then
        var u, v := seen.value.value, data.value;
        Some((agent.result, if agent.swapped then (u, v) else (v, u)))
      else None
    else None
  }

  // The calls of the agent with output w in the first n moves.
  function CallsTo(states: seq<System>, moves: seq<Move>, n: nat, w: Wire): seq<(Value, Value)>
    requires n <= |moves| && n <= |states|
  {
    if n == 0 then []
    else
      var call := CallMade(states[n - 1], moves[n - 1]);
      CallsTo(states, moves, n - 1, w) + if call.Some? && call.value.0 == w then [call.value.1] else []
  }

  function DueCalls(b: Job, j: nat): seq<(Value, Value)>
    requires j < Size(b)
  {
    if Due(b, j) then [(Acc(b, j).value, b.vs[j].value)] else []
  }

  // An agent that is gone has made its call.
  ghost predicate Called(b: Job, s: System, j: nat, calls: seq<(Value, Value)>)
    requires j < Size(b)
  {
    var left := Tally(Agents(2 * j + 1), s);
    left <= 1 && calls == if left == 0 then DueCalls(b, j) else []
  }

  // Only a rule that finds both operands calls, and then on the fold so far.
  lemma CallIsDue(b: Job, s: System, i: nat, data: Port, p: Port)
    requires Linear(s) && Right(b, s) && i < |s.net.pairs| && Faces(b, s.net, data, p)
    requires s.net.pairs[i] == (data, p) || s.net.pairs[i] == (p, data)
    ensures RuleAt(s, data, p).Calls? ==> Due(b, p.result / 2)
    ensures CallMade(s, Start(i)) ==
            if RuleAt(s, data, p).Calls? then Some((p.result, (Acc(b, p.result / 2).value, b.vs[p.result / 2].value)))
            else None
  {
    if p.Merge? {
      SeesTheOperand(b, s, i, data, p);
    }
  }

  lemma RuleUses(b: Job, s: System, data: Port, p: Port, links: seq<Link>, w: Wire)
    requires Faces(b, s.net, data, p) && Ruled(b, s, data, p, links)
    ensures LinksTally(Agents(w), links) == if p.Merge? && p.result == w && RuleAt(s, data, p).Turns? then 1 else 0
    ensures RuleAt(s, data, p).Erases? ==> !Due(b, p.result / 2)
  {
    hide Folded;
    if p.Merge? {
      TwoLinksTally(Agents(w), links[0], links[1]);
      assert p.result == 2 * (p.result / 2) + 1;
    }
  }

  lemma CallTallies(b: Job, s: System, i: nat, w: Wire) returns (data: Port, p: Port)
    requires Linear(s) && Right(b, s) && i < |s.net.pairs|
    ensures Faces(b, s.net, data, p) && (s.net.pairs[i] == (data, p) || s.net.pairs[i] == (p, data))
    ensures Enabled(map[], s, Start(i))
    ensures var n, n' := Tally(Agents(w), s), Tally(Agents(w), Step(map[], s, Start(i)));
            if p.Merge? && p.result == w && !RuleAt(s, data, p).Turns? then n == n' + 1 else n == n'
    ensures RuleAt(s, data, p).Erases? ==> !Due(b, p.result / 2)
  {
    hide Tally, LinksTally, Ruled, Right, Linear, Interact, Turned;
    var links;
    data, p, links := RuleLinks(b, s, i);
    StartTally(Agents(w), map[], s, i);
    RuleUses(b, s, data, p, links, w);
  }

  lemma StartKeepsCalled(b: Job, s: System, i: nat, j: nat, calls: seq<(Value, Value)>)
    requires Good(b, s) && i < |s.net.pairs| && j < Size(b) && Called(b, s, j, calls)
    ensures Enabled(map[], s, Start(i))
    ensures var call := CallMade(s, Start(i));
            Called(b, Step(map[], s, Start(i)), j,
                   calls + if call.Some? && call.value.0 == 2 * j + 1 then [call.value.1] else [])
  {
    hide Tally, Step, Enabled, CallMade, Turned, Right, Whole, OneEnd, Linear, Folded;
    var w := 2 * j + 1;
    var data, p := CallTallies(b, s, i, w);
    CallIsDue(b, s, i, data, p);
    assert w / 2 == j && calls + [] == calls;
  }

  lemma LoadedHasCalledNothing(b: Job, j: nat)
    requires j < Size(b)
    ensures Called(b, Loaded(b.join, b.unit, b.vs), j, [])
  {
    hide Serialize.Chain, Arrivals, Folded, NetTally, InflightTally, ChainWeight, OperandsWeight;
    ChainTally(b, Agents(2 * j + 1), Size(b));
    ChainHolds(b, 2 * j + 1, Size(b));
    ArrivalsTally(Agents(2 * j + 1), b.vs);
    OperandsHold(2 * j + 1, b.vs);
  }

  lemma ActKeepsCalled(b: Job, s: System, k: nat, j: nat, calls: seq<(Value, Value)>)
    requires Linear(s) && Enabled(map[], s, Act(k)) && j < Size(b) && Called(b, s, j, calls)
    ensures Called(b, Step(map[], s, Act(k)), j, calls)
  {
    ActTally(Agents(2 * j + 1), map[], s, k);
  }

  lemma {:induction false} RunCalls(b: Job, states: seq<System>, moves: seq<Move>, i: nat, j: nat)
    requires Run(map[], states, moves) && Starts(b, states[0]) && i < |states| && j < Size(b)
    ensures Called(b, states[i], j, CallsTo(states, moves, i, 2 * j + 1))
    decreases i
  {
    hide Step, Called, Right, Whole, OneEnd, Linear, Loaded;
    if i == 0 {
      LoadedHasCalledNothing(b, j);
    } else {
      var s, calls := states[i - 1], CallsTo(states, moves, i - 1, 2 * j + 1);
      RunCalls(b, states, moves, i - 1, j);
      RunIsGood(b, states, moves, i - 1);
      assert Enabled(map[], s, moves[i - 1]);
      match moves[i - 1]
      case Start(p) => StartKeepsCalled(b, s, p, j, calls);
      case Act(k) =>
        ActKeepsCalled(b, s, k, j, calls);
        assert calls + [] == calls;
    }
  }

  lemma {:induction false} ChainHolds(b: Job, w: Wire, count: nat)
    ensures ChainWeight(b, Agents(w), count) == if w < 2 * count && w % 2 == 1 then 1 else 0
  {
    if count > 0 {
      ChainHolds(b, w, count - 1);
    }
  }

  lemma {:induction false} OperandsHold(w: Wire, vs: seq<Operand>)
    ensures OperandsWeight(Agents(w), vs) == 0
    decreases |vs|
  {
    if vs != [] {
      OperandsHold(w, vs[..|vs| - 1]);
    }
  }

  /** Every schedule of the chain stops; no agent calls its function twice on the
      way, nor on anything but the fold so far and its operand; and where nothing is
      left to do the fold of all operands is on the output, and every agent has made
      its one call. Where join raised or an operand was erased, an erasure is on the
      output, and an agent with either side erased has made no call. */
  lemma ChainRuns(b: Job, states: seq<System>, moves: seq<Move>, i: nat)
    requires Run(map[], states, moves) && Starts(b, states[0]) && i < |states| && Size(b) > 0
    ensures |moves| <= 10 * Size(b) + 1
    ensures forall j: nat | j < Size(b) ::
              var calls := CallsTo(states, moves, i, 2 * j + 1); calls == [] || calls == DueCalls(b, j)
    ensures Quiescent(map[], states[i]) ==>
              var out := 2 * Size(b) - 1;
              && out in Live(states[i].net) && Delivers(states[i].net.target[out], Acc(b, Size(b)))
              && forall j: nat | j < Size(b) :: CallsTo(states, moves, i, 2 * j + 1) == DueCalls(b, j)
  {
    ChainStops(b, states, moves);
    RunIsGood(b, states, moves, i);
    forall j: nat | j < Size(b)
      ensures var calls := CallsTo(states, moves, i, 2 * j + 1);
              (calls == [] || calls == DueCalls(b, j)) && (Quiescent(map[], states[i]) ==> calls == DueCalls(b, j))
    {
      RunCalls(b, states, moves, i, j);
      if Quiescent(map[], states[i]) && Tally(Agents(2 * j + 1), states[i]) > 0 {
        NothingIsPending(b, states[i]);
        NoAgentIsLeft(b, states[i], j);
        var u := MapTallyWitness(Agents(2 * j + 1), Live(states[i].net));
        assert false;
      }
    }
    if Quiescent(map[], states[i]) {
      ChainDelivers(b, states[i]);
    }
  }
}
