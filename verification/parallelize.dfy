/** parallelize_value of src/natsune/backend/registers.py run to the end: an iterator
    is taken from the value and split once for each element, and every schedule
    delivers the elements in index order, and erasures past the last. */
module Parallelize {
  import opened Options
  import opened Nets
  import opened Interactions
  import opened Machine
  import opened Tallies

  // iter and next of Python; None is what raises.
  type Iter = Value -> Option<Value>
  type Next = Value -> Option<(Value, Value)>

  datatype Job = Job(iter: Iter, next: Next, count: nat, input: Option<Value>)

  function Sent(v: Option<Value>): Port {
    if v.Some? then ValuePort(v.value) else Erasure(true)
  }

  // filter_invocation's merge ignores the constant on its operand wire.
  const NONE: Value := 0

  /* The value comes in on wire 0, where the filter is; its constant is on wire 1 and
     the first iterator comes out on wire 2. Element i comes out on wire 2i + 3, and
     the iterator after it on wire 2i + 4. */
  function Filter(b: Job): Port {
    Merge((x: Value, n: Value) => b.iter(x), 1, 2, false)
  }

  function Agent(b: Job, i: nat): Port {
    Split(b.next, 2 * i + 3, 2 * i + 4)
  }

  function Element(i: nat): Wire {
    2 * i + 3
  }

  function Filtered(b: Job): Net {
    Connect(Connect(Net(map[], {}, []), AtWire(1), AtPort(ValuePort(NONE))), AtWire(0), AtPort(Filter(b)))
  }

  function Unrolling(b: Job, n: nat): Net {
    if n == 0 then Filtered(b) else Connect(Unrolling(b, n - 1), AtWire(2 * n), AtPort(Agent(b, n - 1)))
  }

  // The last iterator is closed.
  function Chain(b: Job): Net {
    Connect(Unrolling(b, b.count), AtWire(2 * b.count + 2), AtPort(Erasure(false)))
  }

  function Elements(count: nat): (r: seq<Wire>)
    ensures |r| == count && forall i :: 0 <= i < count ==> r[i] == Element(i)
  {
    seq(count, i requires 0 <= i < count => Element(i))
  }

  /** The loop of parallelize_value. */
  method ParallelizeValue(b: Job) returns (net: Net, result: seq<Wire>)
    ensures net == Chain(b) && result == Elements(b.count)
  {
    net := Connect(Net(map[], {}, []), AtWire(1), AtPort(ValuePort(NONE)));
    net := Connect(net, AtWire(0), AtPort(Filter(b)));
    result := [];
    var curIter, i := 2, 0;
    while i < b.count
      invariant 0 <= i <= b.count && curIter == 2 * i + 2
      invariant net == Unrolling(b, i) && result == Elements(i)
    {
      net := Connect(net, AtWire(curIter), AtPort(Agent(b, i)));
      result := result + [Element(i)];
      curIter := 2 * i + 4;
      i := i + 1;
    }
    net := Connect(net, AtWire(curIter), AtPort(Erasure(false)));
  }

  // The value is delivered by some worker.
  function Loaded(b: Job): System {
    System(Chain(b), [[(AtPort(Sent(b.input)), AtWire(0))]], 2 * b.count + 3)
  }

  /* ---- What is due ---- */

  // The iterator after n elements; None once something raised.
  function Iterator(b: Job, n: nat): Option<Value> {
    if n == 0 then (if b.input.None? then None else b.iter(b.input.value))
    else if Iterator(b, n - 1).None? || b.next(Iterator(b, n - 1).value).None? then None
    else Some(b.next(Iterator(b, n - 1).value).value.1)
  }

  function ElementOf(b: Job, i: nat): Option<Value> {
    if Iterator(b, i).None? || b.next(Iterator(b, i).value).None? then None
    else Some(b.next(Iterator(b, i).value).value.0)
  }

  // What is delivered to each wire.
  function Due(b: Job, w: Wire): Option<Value> {
    if w == 0 then b.input
    else if w == 1 then None
    else if w % 2 == 0 then Iterator(b, w / 2 - 1)
    else ElementOf(b, (w - 3) / 2)
  }

  predicate Delivers(p: Port, v: Option<Value>) {
    if v.Some? then p == ValuePort(v.value) else p.Erasure?
  }

  // The port a wire is set to from the start; the elements' wires are not.
  predicate IsSet(b: Job, w: Wire) {
    w == 1 || (w % 2 == 0 && w <= 2 * b.count + 2)
  }

  predicate IsElement(b: Job, w: Wire) {
    w % 2 == 1 && 3 <= w < 2 * b.count + 3
  }

  function Consumer(b: Job, w: Wire): Port
    requires IsSet(b, w)
  {
    if w == 1 then ValuePort(NONE)
    else if w == 0 then Filter(b)
    else if w == 2 * b.count + 2 then Erasure(false)
    else Agent(b, w / 2 - 1)
  }

  lemma {:induction false} UnrollingShape(b: Job, n: nat)
    ensures var net := Unrolling(b, n);
            && net.spent == {} && net.pairs == []
            && (forall w: Wire :: w in net.target <==> w == 1 || (w % 2 == 0 && w <= 2 * n))
            && (forall w: Wire :: w in net.target ==>
                  net.target[w]
                  == if w == 1 then ValuePort(NONE) else if w == 0 then Filter(b) else Agent(b, w / 2 - 1))
  {
    if n > 0 {
      UnrollingShape(b, n - 1);
    }
  }

  lemma ChainShape(b: Job)
    ensures var net := Chain(b);
            && net.spent == {} && net.pairs == []
            && (forall w: Wire :: w in net.target <==> IsSet(b, w))
            && (forall w: Wire :: w in net.target ==> net.target[w] == Consumer(b, w))
  {
    UnrollingShape(b, b.count);
  }

  /* ---- References ---- */

  lemma {:induction false} UnrollingCount(b: Job, n: nat, w: Wire)
    ensures NetCount(Unrolling(b, n), w) == if 1 <= w <= 2 * n + 2 then 1 else 0
  {
    hide NetCount, Connect;
    if n == 0 {
      FilteredCount(b, w);
    } else {
      UnrollingCount(b, n - 1, w);
      UnrollingShape(b, n - 1);
      ConnectCount(Unrolling(b, n - 1), AtWire(2 * n), AtPort(Agent(b, n - 1)), w);
    }
  }

  lemma FilteredCount(b: Job, w: Wire)
    ensures NetCount(Filtered(b), w) == if 1 <= w <= 2 then 1 else 0
  {
    var net := Net(map[], {}, []);
    var net' := Connect(net, AtWire(1), AtPort(ValuePort(NONE)));
    assert Live(net) == map[];
    ConnectCount(net, AtWire(1), AtPort(ValuePort(NONE)), w);
    ConnectCount(net', AtWire(0), AtPort(Filter(b)), w);
  }

  /* ---- What may be where ---- */

  // A connect brings a wire what is due there.
  ghost predicate RightLink(b: Job, link: Link) {
    && link.0.AtPort? != link.1.AtPort?
    && var w := Meets(link.0, link.1).value;
       w < 2 * b.count + 3 && Delivers(Arriving(link), Due(b, w))
  }

  ghost predicate RightTarget(b: Job, w: Wire, p: Port) {
    if IsSet(b, w) then p == Consumer(b, w) else IsElement(b, w) && Delivers(p, Due(b, w))
  }

  ghost predicate Faces(b: Job, w: Wire, p: Port, data: Port) {
    IsSet(b, w) && p == Consumer(b, w) && Delivers(data, Due(b, w))
  }

  ghost predicate RightPair(b: Job, pair: Pair) {
    exists w: Wire :: Faces(b, w, pair.0, pair.1) || Faces(b, w, pair.1, pair.0)
  }

  ghost predicate Right(b: Job, s: System) {
    && 2 * b.count + 3 <= s.next
    && (forall w :: IsSet(b, w) ==> w in s.net.target && s.net.target[w] == Consumer(b, w))
    && (forall w :: w in s.net.target ==> RightTarget(b, w, s.net.target[w]))
    && (forall i :: 0 <= i < |s.net.pairs| ==> RightPair(b, s.net.pairs[i]))
    && (forall k, j :: 0 <= k < |s.inflight| && 0 <= j < |s.inflight[k]| ==> RightLink(b, s.inflight[k][j]))
  }

  // A wire has its one reference until what is due there has come.
  ghost predicate Once(b: Job, s: System, w: Wire) {
    && NetCount(s.net, w) + InflightCount(s.inflight, w)
       == (if w in s.net.spent || (IsElement(b, w) && w in s.net.target) then 0 else 1)
    && (IsElement(b, w) ==> w !in s.net.spent)
  }

  ghost predicate Good(b: Job, s: System) {
    Linear(s) && Right(b, s) && forall w: Wire :: w < 2 * b.count + 3 ==> Once(b, s, w)
  }

  /* ---- Rules ---- */

  lemma EraseBoth(a: Wire, c: Wire)
    ensures Erase([a, c]) == [(AtPort(Erasure(false)), AtWire(a)), (AtPort(Erasure(false)), AtWire(c))]
  {
    assert [a, c][1..] == [c] && [c][1..] == [];
    assert Erase([c]) == [(AtPort(Erasure(false)), AtWire(c))] + Erase([]);
  }

  lemma NoErasures(p: Port, q: Port)
    requires Wires(p) == []
    ensures Erase(Wires(p)) + Erase(Wires(q)) == Erase(Wires(q)) == Erase(Wires(q)) + Erase(Wires(p))
  {
    assert Erase([]) == [];
  }

  // An agent facing data, on whichever side.
  lemma AgentRule(p: Port, data: Port, l: Port, r: Port, seen: Option<Port>, next: Wire)
    requires IsAgent(p) && (data.ValuePort? || data.Erasure?) && ((l, r) == (p, data) || (l, r) == (data, p))
    ensures Interact(l, r, seen, next)
         == Some(if data.Erasure? then Erase(Wires(p))
                 else if p.Split? then ExtSplit(p, data.value) else ExtMerge(p, data.value, seen, next))
  {
    if data.Erasure? {
      NoErasures(data, p);
    }
  }

  // A value or an erasure facing an erasure.
  lemma DataRule(p: Port, data: Port, l: Port, r: Port, seen: Option<Port>, next: Wire)
    requires (p.ValuePort? || p.Erasure?) && (data.ValuePort? || data.Erasure?) && (p.Erasure? || data.Erasure?)
    requires (l, r) == (p, data) || (l, r) == (data, p)
    ensures Interact(l, r, seen, next) == Some([])
  {
    NoErasures(data, p);
    assert Erase([]) == [];
  }

  // The filter sees its constant.
  lemma Sees(b: Job, s: System, p: Port, data: Port, l: Port, r: Port)
    requires Right(b, s) && p == Filter(b) && data.ValuePort? && ((l, r) == (p, data) || (l, r) == (data, p))
    ensures Observed(s.net, l, r) == Some(ValuePort(NONE))
  {
    assert IsSet(b, 1) && Consumer(b, 1) == ValuePort(NONE);
  }

  // An agent delivers to both its wires; what is not an agent, to none.
  lemma RuleDelivers(b: Job, s: System, i: nat) returns (w: Wire, p: Port, data: Port, links: seq<Link>)
    requires Right(b, s) && i < |s.net.pairs|
    ensures Faces(b, w, p, data) && (s.net.pairs[i] == (p, data) || s.net.pairs[i] == (data, p))
    ensures Enabled(map[], s, Start(i))
    ensures var (l, r) := s.net.pairs[i]; links == Interact(l, r, Observed(s.net, l, r), s.next).value
    ensures if IsAgent(p) then |links| == 2 && RightLink(b, links[0]) && RightLink(b, links[1]) else links == []
  {
    hide Interact, RightLink, RightTarget, ExtSplit, ExtMerge, Erase, Iterator, ElementOf;
    assert RightPair(b, s.net.pairs[i]);
    w :| Faces(b, w, s.net.pairs[i].0, s.net.pairs[i].1) || Faces(b, w, s.net.pairs[i].1, s.net.pairs[i].0);
    var (l, r) := s.net.pairs[i];
    p, data := if Faces(b, w, l, r) then l else r, if Faces(b, w, l, r) then r else l;
    var seen := Observed(s.net, l, r);
    if IsAgent(p) {
      AgentRule(p, data, l, r, seen, s.next);
      if p.Split? {
        SplitDelivers(b, w, data, s.next);
      } else {
        FilterDelivers(b, data, s.next);
        if data.ValuePort? {
          Sees(b, s, p, data, l, r);
        }
      }
    } else {
      DataRule(p, data, l, r, seen, s.next);
    }
    links := Interact(l, r, seen, s.next).value;
  }

  lemma SplitDelivers(b: Job, w: Wire, data: Port, next: Wire)
    requires IsSet(b, w) && Consumer(b, w).Split? && Delivers(data, Due(b, w))
    ensures var p := Consumer(b, w);
            var links := if data.ValuePort? then ExtSplit(p, data.value) else Erase(Wires(p));
            |links| == 2 && RightLink(b, links[0]) && RightLink(b, links[1])
  {
    var i := w / 2 - 1;
    assert w == 2 * i + 2 && i < b.count;
    assert Consumer(b, w) == Agent(b, i) && Wires(Agent(b, i)) == [2 * i + 3, 2 * i + 4];
    assert Due(b, w) == Iterator(b, i) && Due(b, 2 * i + 3) == ElementOf(b, i);
    assert Due(b, 2 * i + 4) == Iterator(b, i + 1);
    EraseBoth(2 * i + 3, 2 * i + 4);
  }

  lemma FilterDelivers(b: Job, data: Port, next: Wire)
    requires Delivers(data, b.input)
    ensures var links := if data.ValuePort? then ExtMerge(Filter(b), data.value, Some(ValuePort(NONE)), next)
                         else Erase(Wires(Filter(b)));
            |links| == 2 && RightLink(b, links[0]) && RightLink(b, links[1])
  {
    EraseBoth(1, 2);
    assert Due(b, 2) == Iterator(b, 0) && Due(b, 1) == None;
  }

  lemma StartKeepsGood(b: Job, s: System, i: nat)
    requires Good(b, s) && i < |s.net.pairs|
    ensures Enabled(map[], s, Start(i)) && Good(b, Step(map[], s, Start(i)))
  {
    var w, p, data, links := RuleDelivers(b, s, i);
    StartKeepsLinear(map[], s, i);
    var s' := Step(map[], s, Start(i));
    forall v: Wire | v < 2 * b.count + 3 ensures Once(b, s', v) {
      assert Once(b, s, v);
      StartCounts(s, i, v);
    }
    forall k, j | 0 <= k < |s'.inflight| && 0 <= j < |s'.inflight[k]| ensures RightLink(b, s'.inflight[k][j]) {
      assert k < |s.inflight| ==> s'.inflight[k] == s.inflight[k];
    }
  }

  // Starting a rule keeps the references to the wires there are.
  lemma StartCounts(s: System, i: nat, w: Wire)
    requires i < |s.net.pairs| && Enabled(map[], s, Start(i)) && w < s.next
    ensures var s' := Step(map[], s, Start(i));
            NetCount(s'.net, w) + InflightCount(s'.inflight, w) == NetCount(s.net, w) + InflightCount(s.inflight, w)
  {
    var (l, r) := s.net.pairs[i];
    var seen := Observed(s.net, l, r);
    PairsCountRemove(s.net.pairs, i, w);
    RulesConserve(l, r, seen, s.next, w);
    InflightAdd(s.inflight, Interact(l, r, seen, s.next).value, w);
    assert Live(Step(map[], s, Start(i)).net) == Live(s.net);
  }

  lemma ActKeepsGood(b: Job, s: System, k: nat)
    requires Good(b, s) && Enabled(map[], s, Act(k))
    ensures Good(b, Step(map[], s, Act(k)))
  {
    ActKeepsLinear(map[], s, k);
    ActKeepsRight(b, s, k);
    forall v: Wire | v < 2 * b.count + 3 ensures Once(b, Step(map[], s, Act(k)), v) {
      ActKeepsOnce(b, s, k, v);
    }
  }

  // What meets on a set wire is its consumer and what is due there.
  lemma ActKeepsRight(b: Job, s: System, k: nat)
    requires Linear(s) && Right(b, s) && Enabled(map[], s, Act(k))
    requires forall w: Wire :: w < 2 * b.count + 3 ==> Once(b, s, w)
    ensures Right(b, Step(map[], s, Act(k)))
  {
    var s', link := Step(map[], s, Act(k)), s.inflight[k][0];
    assert RightLink(b, link);
    var w := Meets(link.0, link.1).value;
    assert Once(b, s, w);
    ActTargets(b, s, k, w);
    hide Linear, Once, Due, Consumer, InflightCount, NetCount;
    assert s'.net == ConnectWireToPort(s.net, w, Arriving(link));
    if IsSet(b, w) {
      assert Faces(b, w, s.net.target[w], Arriving(link));
      assert RightPair(b, (s.net.target[w], Arriving(link)));
    } else {
      assert RightTarget(b, w, Arriving(link));
    }
    forall i, j | 0 <= i < |s'.inflight| && 0 <= j < |s'.inflight[i]| ensures RightLink(b, s'.inflight[i][j]) {
      if i == k {
        assert s'.inflight[i][j] == s.inflight[k][j + 1];
      }
    }
  }

  // A connect uses up the reference it meets by, and no other.
  lemma ActCounts(s: System, k: nat, v: Wire)
    requires Linear(s) && Enabled(map[], s, Act(k))
    ensures var s', link := Step(map[], s, Act(k)), s.inflight[k][0];
            NetCount(s'.net, v) + InflightCount(s'.inflight, v) + Met(link.0, link.1, v)
            == NetCount(s.net, v) + InflightCount(s.inflight, v)
  {
    var link := s.inflight[k][0];
    hide NetCount, Linear;
    assert Meets(link.0, link.1).Some? ==> Meets(link.0, link.1).value !in s.net.spent by {
      ActKeepsLinear(map[], s, k);
    }
    assert s.net.spent <= s.net.target.Keys by { SpentAreSet(s); }
    InflightUpdate(s.inflight, k, s.inflight[k][1..], v);
    ConnectCount(s.net, link.0, link.1, v);
  }

  lemma SpentAreSet(s: System)
    requires Linear(s)
    ensures s.net.spent <= s.net.target.Keys
  {
  }

  // The wire a right connect meets: set and used up, or an element's and set.
  lemma ActTargets(b: Job, s: System, k: nat, v: Wire)
    requires Linear(s) && Right(b, s) && Enabled(map[], s, Act(k)) && v < 2 * b.count + 3 && Once(b, s, v)
    ensures var s', link := Step(map[], s, Act(k)), s.inflight[k][0];
            if Meets(link.0, link.1) == Some(v) then
              if IsSet(b, v) then v in s'.net.spent
              else v !in s.net.target && v in s'.net.target && (v in s'.net.spent <==> v in s.net.spent)
            else (v in s'.net.spent <==> v in s.net.spent) && (v in s'.net.target <==> v in s.net.target)
  {
    var link := s.inflight[k][0];
    assert RightLink(b, link);
    hide Due, Consumer, Linear, NetCount, InflightCount, RightPair, RightTarget, Delivers;
    if Meets(link.0, link.1) == Some(v) {
      StillReferred(b, s, k, v);
      assert IsSet(b, v) || IsElement(b, v);
      assert IsSet(b, v) ==> v in s.net.target;
    }
  }

  // The wire of a connect to come has its reference.
  lemma StillReferred(b: Job, s: System, k: nat, v: Wire)
    requires k < |s.inflight| && s.inflight[k] != [] && Once(b, s, v)
    requires Meets(s.inflight[k][0].0, s.inflight[k][0].1) == Some(v)
    ensures v !in s.net.spent && (IsElement(b, v) ==> v !in s.net.target)
  {
    hide NetCount, IsElement;
    InflightUpdate(s.inflight, k, [], v);
    LinkRefers(s.inflight[k][0], v);
  }

  lemma ActKeepsOnce(b: Job, s: System, k: nat, v: Wire)
    requires Linear(s) && Right(b, s) && Enabled(map[], s, Act(k)) && v < 2 * b.count + 3 && Once(b, s, v)
    ensures Once(b, Step(map[], s, Act(k)), v)
  {
    hide NetCount, InflightCount, Linear, Right, Step;
    ActCounts(s, k, v);
    ActTargets(b, s, k, v);
    assert IsSet(b, v) || IsElement(b, v);
  }

  /* ---- The net as built ---- */

  lemma ChainCount(b: Job, w: Wire)
    ensures NetCount(Chain(b), w) == if 1 <= w < 2 * b.count + 3 then 1 else 0
  {
    var last := 2 * b.count + 2;
    UnrollingCount(b, b.count, w);
    UnrollingShape(b, b.count);
    hide NetCount, Unrolling, Connect;
    ConnectCount(Unrolling(b, b.count), AtWire(last), AtPort(Erasure(false)), w);
  }

  lemma ArrivalCount(b: Job, w: Wire)
    ensures InflightCount(Loaded(b).inflight, w) == One(0, w)
  {
    var link := (AtPort(Sent(b.input)), AtWire(0));
    InflightAdd([], [link], w);
    assert [] + [[link]] == Loaded(b).inflight && [link][1..] == [];
  }

  lemma LoadedCount(b: Job, w: Wire)
    ensures var s := Loaded(b);
            NetCount(s.net, w) + InflightCount(s.inflight, w) == if w < 2 * b.count + 3 then 1 else 0
  {
    hide NetCount, InflightCount, Chain;
    ChainCount(b, w);
    ArrivalCount(b, w);
  }

  lemma LoadedIsGood(b: Job)
    ensures Good(b, Loaded(b))
  {
    var s := Loaded(b);
    hide NetCount, InflightCount, Chain;
    ChainShape(b);
    forall w: Wire
      ensures LinearAt(s.net, w, InflightCount(s.inflight, w))
              && (w >= s.next ==> NetCount(s.net, w) + InflightCount(s.inflight, w) == 0)
    {
      LoadedCount(b, w);
    }
    forall w: Wire | w < 2 * b.count + 3 ensures Once(b, s, w) {
      LoadedCount(b, w);
    }
  }

  lemma {:induction false} RunIsGood(b: Job, states: seq<System>, moves: seq<Move>, i: nat)
    requires Run(map[], states, moves) && states[0] == Loaded(b) && i < |states|
    ensures Good(b, states[i]) && (i < |moves| ==> !moves[i].Expand?)
    decreases i
  {
    hide Good;
    if i == 0 {
      LoadedIsGood(b);
    } else {
      RunIsGood(b, states, moves, i - 1);
      assert Enabled(map[], states[i - 1], moves[i - 1]);
      StepKeepsGood(b, states[i - 1], moves[i - 1]);
    }
    if i < |moves| {
      assert Enabled(map[], states[i], moves[i]);
    }
  }

  /** In every state of every run each agent faces only what is due to it, and each
      wire gets what is due there once. */
  lemma StepKeepsGood(b: Job, s: System, move: Move)
    requires Good(b, s) && Enabled(map[], s, move)
    ensures Good(b, Step(map[], s, move))
  {
    hide Good;
    match move
    case Start(i) => StartKeepsGood(b, s, i);
    case Act(k) => ActKeepsGood(b, s, k);
    case Expand(_, _, _, _, _) =>
  }

  /* ---- It stops ---- */

  const EFFORT: Weight := Weight((p: Port) => if IsAgent(p) then 4 else 1, (v: Wire, p: Port) => 0)

  ghost function Effort(s: System): nat {
    Tally(EFFORT, s) + Coming(s.inflight)
  }

  lemma LinkEffort(b: Job, link: Link)
    requires RightLink(b, link)
    ensures LinkWeight(EFFORT, link) == 1
  {
  }

  lemma StepTakesEffort(b: Job, s: System, move: Move)
    requires Good(b, s) && Enabled(map[], s, move)
    ensures Effort(Step(map[], s, move)) < Effort(s)
  {
    match move
    case Start(i) =>
      hide Tally, Linear;
      var w, p, data, links := RuleDelivers(b, s, i);
      StartTally(EFFORT, map[], s, i);
      ComingAdd(s.inflight, links);
      if IsAgent(p) {
        TwoLinksTally(EFFORT, links[0], links[1]);
        LinkEffort(b, links[0]);
        LinkEffort(b, links[1]);
        assert links == [links[0], links[1]];
      }
    case Act(k) =>
      ActTally(EFFORT, map[], s, k);
      ComingUpdate(s.inflight, k, s.inflight[k][1..]);
    case Expand(_, _, _, _, _) =>
  }

  lemma {:induction false} UnrollingEffort(b: Job, n: nat)
    ensures NetTally(EFFORT, Unrolling(b, n)) == 4 * n + 5
  {
    if n == 0 {
      var net := Net(map[], {}, []);
      var net' := Connect(net, AtWire(1), AtPort(ValuePort(NONE)));
      assert Live(net) == map[];
      ConnectTally(EFFORT, net, (AtWire(1), AtPort(ValuePort(NONE))));
      ConnectTally(EFFORT, net', (AtWire(0), AtPort(Filter(b))));
    } else {
      UnrollingEffort(b, n - 1);
      UnrollingShape(b, n - 1);
      ConnectTally(EFFORT, Unrolling(b, n - 1), (AtWire(2 * n), AtPort(Agent(b, n - 1))));
    }
  }

  lemma ChainEffort(b: Job)
    ensures NetTally(EFFORT, Chain(b)) == 4 * b.count + 6
  {
    var net, link := Unrolling(b, b.count), (AtWire(2 * b.count + 2), AtPort(Erasure(false)));
    UnrollingEffort(b, b.count);
    UnrollingShape(b, b.count);
    assert Chain(b) == Connect(net, link.0, link.1);
    assert LinkWeight(EFFORT, link) == 1;
    hide *;
    ConnectTally(EFFORT, net, link);
  }

  lemma LoadedEffort(b: Job)
    ensures Effort(Loaded(b)) == 4 * b.count + 8
  {
    hide NetTally, Chain;
    var s, link := Loaded(b), (AtPort(Sent(b.input)), AtWire(0));
    ChainEffort(b);
    InflightTallyAdd(EFFORT, [], [link]);
    ComingAdd([], [link]);
    assert [] + [[link]] == s.inflight && [link][1..] == [];
    assert LinkWeight(EFFORT, link) == 1;
  }

  lemma {:induction false} EffortRunsOut(b: Job, states: seq<System>, moves: seq<Move>, i: nat)
    requires Run(map[], states, moves) && states[0] == Loaded(b) && i < |states|
    ensures i + Effort(states[i]) <= Effort(states[0])
    decreases i
  {
    hide Effort, Good;
    if i > 0 {
      EffortRunsOut(b, states, moves, i - 1);
      RunIsGood(b, states, moves, i - 1);
      assert Enabled(map[], states[i - 1], moves[i - 1]);
      StepTakesEffort(b, states[i - 1], moves[i - 1]);
    }
  }

  /* ---- Where it stops ---- */

  lemma NothingIsPending(b: Job, s: System)
    requires Good(b, s) && Quiescent(map[], s)
    ensures s.net.pairs == [] && forall w :: InflightCount(s.inflight, w) == 0
  {
    if s.net.pairs != [] {
      var w, p, data, links := RuleDelivers(b, s, 0);
    }
    forall k | 0 <= k < |s.inflight| ensures s.inflight[k] == [] {
      assert !Enabled(map[], s, Act(k));
    }
    forall w ensures InflightCount(s.inflight, w) == 0 {
      NoneInflight(s.inflight, w);
    }
  }

  lemma {:induction false} NoneInflight(inflight: seq<seq<Link>>, w: Wire)
    requires forall k :: 0 <= k < |inflight| ==> inflight[k] == []
    ensures InflightCount(inflight, w) == 0
    decreases |inflight|
  {
    if inflight != [] {
      NoneInflight(inflight[..|inflight| - 1], w);
    }
  }

  lemma {:induction false} ReferenceIn(m: map<Wire, Port>, w: Wire) returns (u: Wire)
    requires MapCount(m, w) > 0
    ensures u in m && PortCount(m[u], w) > 0
    decreases |m|
  {
    var v :| v in m;
    MapCountRemove(m, v, w);
    if PortCount(m[v], w) > 0 {
      u := v;
    } else {
      u := ReferenceIn(m - {v}, w);
    }
  }

  // The wire whose consumer delivers to w.
  function Producer(w: Wire): Wire
    requires w > 0
  {
    if w <= 2 then 0 else if w % 2 == 1 then w - 1 else w - 2
  }

  // At rest a wire that still has its reference has it from its producer, which then
  // has not had its delivery either.
  lemma WaitsForProducer(b: Job, s: System, w: Wire)
    requires Good(b, s) && Quiescent(map[], s) && w < 2 * b.count + 3
    requires w !in s.net.spent && !(IsElement(b, w) && w in s.net.target)
    ensures w > 0 && IsSet(b, Producer(w)) && Producer(w) !in s.net.spent
  {
    NothingIsPending(b, s);
    assert Once(b, s, w);
    hide Linear, Once, Quiescent, RightPair, RightLink, Due;
    var u := ReferenceIn(Live(s.net), w);
    assert RightTarget(b, u, s.net.target[u]);
    ReferredBy(b, u, w);
  }

  lemma ReferredBy(b: Job, u: Wire, w: Wire)
    requires IsSet(b, u) && PortCount(Consumer(b, u), w) > 0
    ensures w > 0 && u == Producer(w)
  {
  }

  lemma {:induction false} AllDelivered(b: Job, s: System, w: Wire)
    requires Good(b, s) && Quiescent(map[], s) && w < 2 * b.count + 3
    ensures if IsElement(b, w) then w in s.net.target else w in s.net.spent
    decreases w
  {
    hide Good, Quiescent;
    if w !in s.net.spent && !(IsElement(b, w) && w in s.net.target) {
      WaitsForProducer(b, s, w);
      AllDelivered(b, s, Producer(w));
    } else if IsElement(b, w) {
      ElementIsKept(b, s, w);
    }
  }

  lemma ElementIsKept(b: Job, s: System, w: Wire)
    requires Good(b, s) && IsElement(b, w)
    ensures w !in s.net.spent
  {
    assert Once(b, s, w);
  }

  /** Where no step is left every element's wire is set, to what next gave, or to an
      erasure exactly where iter or a next up to it raised; and it has not been used. */
  lemma ElementsAreDelivered(b: Job, s: System, i: nat)
    requires Good(b, s) && Quiescent(map[], s) && i < b.count
    ensures Element(i) in Live(s.net) && Delivers(s.net.target[Element(i)], ElementOf(b, i))
  {
    AllDelivered(b, s, Element(i));
    assert RightTarget(b, Element(i), s.net.target[Element(i)]);
    assert (Element(i) - 3) / 2 == i;
    ElementIsKept(b, s, Element(i));
  }

  /** Every schedule stops within 4n + 8 steps, with the elements where they belong. */
  lemma UnrollingRuns(b: Job, states: seq<System>, moves: seq<Move>, i: nat)
    requires Run(map[], states, moves) && states[0] == Loaded(b) && i < |states|
    ensures |moves| <= 4 * b.count + 8
    ensures Quiescent(map[], states[i]) ==>
              forall j: nat :: j < b.count ==>
                Element(j) in Live(states[i].net) && Delivers(states[i].net.target[Element(j)], ElementOf(b, j))
  {
    EffortRunsOut(b, states, moves, |moves|);
    LoadedEffort(b);
    RunIsGood(b, states, moves, i);
    if Quiescent(map[], states[i]) {
      forall j: nat | j < b.count
        ensures Element(j) in Live(states[i].net) && Delivers(states[i].net.target[Element(j)], ElementOf(b, j))
      {
        ElementsAreDelivered(b, states[i], j);
      }
    }
  }

  /* ---- Over an iterator of given elements ---- */

  // Calling next gives these, one after the other, and then raises.
  predicate Yields(next: Next, it: Value, xs: seq<Value>)
    decreases |xs|
  {
    if xs == [] then next(it).None?
    else next(it).Some? && next(it).value.0 == xs[0] && Yields(next, next(it).value.1, xs[1..])
  }

  lemma {:induction false} IteratorYields(b: Job, it: Value, xs: seq<Value>, n: nat)
    requires b.input.Some? && b.iter(b.input.value) == Some(it) && Yields(b.next, it, xs)
    ensures if n <= |xs| then Iterator(b, n).Some? && Yields(b.next, Iterator(b, n).value, xs[n..])
            else Iterator(b, n).None?
    decreases n
  {
    if n > 0 {
      IteratorYields(b, it, xs, n - 1);
      if n <= |xs| {
        assert xs[n - 1..][1..] == xs[n..];
      } else if n - 1 == |xs| {
        assert xs[n - 1..] == [];
      }
    }
  }

  /** So element j of what is iterated comes out j-th, and nothing past the end; a value
      that cannot be iterated, or was erased, loses them all. */
  lemma ElementsInOrder(b: Job, states: seq<System>, moves: seq<Move>, i: nat, it: Value, xs: seq<Value>, j: nat)
    requires Run(map[], states, moves) && states[0] == Loaded(b) && i < |states| && Quiescent(map[], states[i])
    requires j < b.count
    ensures Element(j) in Live(states[i].net)
    ensures var p := states[i].net.target[Element(j)];
            if b.input.None? || b.iter(b.input.value).None? then p.Erasure?
            else b.iter(b.input.value) == Some(it) && Yields(b.next, it, xs) ==>
                   if j < |xs| then p == ValuePort(xs[j]) else p.Erasure?
  {
    UnrollingRuns(b, states, moves, i);
    if b.input.None? || b.iter(b.input.value).None? {
      NothingYields(b, j);
    } else if b.iter(b.input.value) == Some(it) && Yields(b.next, it, xs) {
      IteratorYields(b, it, xs, j);
    }
  }

  lemma {:induction false} NothingYields(b: Job, n: nat)
    requires b.input.None? || b.iter(b.input.value).None?
    ensures Iterator(b, n).None?
    decreases n
  {
    if n > 0 {
      NothingYields(b, n - 1);
    }
  }
}
