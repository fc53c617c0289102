/** One merge agent between its two operands: the unlocked read of the operand
    wire, the locked connect, and the arrivals, interleaved in every way. */
module MergeAgent {
  import opened Options
  import opened Nets
  import opened Interactions

  type Fn = (Value, Value) -> Option<Value>

  // An operand, or a result: a value, or an erasure.
  datatype Item = Val(value: Value) | Gone

  /* Waiting: as built. Saw and SawNothing: the rule has read the operand wire and
     has its connects to make. Parked: the swapped agent is the operand wire's
     target. Facing: the swapped agent and the second operand are a pair. */
  datatype Stage = Waiting | Saw(operand: Value) | SawNothing | Parked | Facing(item: Item) | Erasing | Closed

  datatype State = State(
    first: Option<Item>, second: Option<Item>, stage: Stage,
    calls: seq<(Value, Value)>, results: seq<Item>)

  const START: State := State(None, None, Waiting, [], [])

  datatype Move = FirstArrives(item: Item) | SecondArrives(item: Item) | Read | Connect | Finish

  predicate Enabled(s: State, move: Move) {
    match move
    case FirstArrives(_) => s.first.None?
    case SecondArrives(_) => s.second.None?
    case Read => s.stage.Waiting? && s.first.Some?
    case Connect => s.first.Some? && (s.stage.Saw? || s.stage.SawNothing? || s.stage.Erasing?)
    case Finish => s.first.Some? && s.stage.Facing?
  }

  function Outcome(fn: Fn, x: Value, y: Value): Item {
    if fn(x, y).Some? then Val(fn(x, y).value) else Gone
  }

  function Step(fn: Fn, s: State, move: Move): State
    requires Enabled(s, move)
  {
    match move
    case FirstArrives(x) => s.(first := Some(x))
    case SecondArrives(y) => s.(second := Some(y), stage := if s.stage.Parked? then Facing(y) else s.stage)
    case Read =>
      (match s.first.value
       case Gone => s.(stage := Erasing)
       case Val(x) =>
         if s.second.Some? && s.second.value.Val? then
           s.(stage := Saw(s.second.value.value), calls := s.calls + [(x, s.second.value.value)])
         else s.(stage := SawNothing))
    case Connect =>
      (match s.stage
       case Saw(y) =>
         var result := if s.first.value.Val? then Outcome(fn, s.first.value.value, y) else Gone;
         s.(stage := Closed, results := s.results + [result])
       case SawNothing => s.(stage := if s.second.Some? then Facing(s.second.value) else Parked)
       case _ => s.(stage := Closed, results := s.results + [Gone]))
    case Finish =>
      if s.first.value.Val? && s.stage.item.Val? then
        var x, y := s.first.value.value, s.stage.item.value;
        s.(stage := Closed, calls := s.calls + [(x, y)], results := s.results + [Outcome(fn, x, y)])
      else s.(stage := Closed, results := s.results + [Gone])
  }

  ghost predicate Run(fn: Fn, states: seq<State>, moves: seq<Move>) {
    && |states| == |moves| + 1 && states[0] == START
    && forall i :: 0 <= i < |moves| ==> Enabled(states[i], moves[i]) && states[i + 1] == Step(fn, states[i], moves[i])
  }

  /* The steps are the merge rule: what each read makes it connect. */
  lemma StepsAreTheRule(fn: Fn, w: Wire, r: Wire, x: Value, y: Value, next: Wire)
    ensures Interact(Merge(fn, w, r, false), ValuePort(x), Some(ValuePort(y)), next)
         == Some([(AtWire(w), AtPort(Erasure(false))),
                  (AtWire(r), AtPort(if fn(x, y).Some? then ValuePort(fn(x, y).value) else Erasure(true)))])
    ensures forall seen: Option<Port> :: (seen.Some? ==> !seen.value.ValuePort?) ==>
              Interact(Merge(fn, w, r, false), ValuePort(x), seen, next)
              == Some([(AtWire(next), AtPort(ValuePort(x))), (AtWire(w), AtPort(Merge(fn, next, r, true)))])
    // The swapped agent always finds the first operand on its own fresh wire.
    ensures Interact(Merge(fn, next, r, true), ValuePort(y), Some(ValuePort(x)), next + 1)
         == Some([(AtWire(next), AtPort(Erasure(false))),
                  (AtWire(r), AtPort(if fn(x, y).Some? then ValuePort(fn(x, y).value) else Erasure(true)))])
    ensures Interact(Merge(fn, next, r, true), Erasure(false), None, next + 1)
         == Some([(AtPort(Erasure(false)), AtWire(next)), (AtPort(Erasure(false)), AtWire(r))])
  {
    var ws := [next, r];
    assert ws[1..] == [r] && [r][1..] == [];
    assert Erase([r]) == [(AtPort(Erasure(false)), AtWire(r))] + Erase([r][1..]);
    assert Erase(ws) == [(AtPort(Erasure(false)), AtWire(next))] + Erase(ws[1..]);
    var links: seq<Link> := [(AtPort(Erasure(false)), AtWire(next)), (AtPort(Erasure(false)), AtWire(r))];
    assert Erase([r][1..]) == [] && Erase(Wires(Erasure(false))) == [];
    assert Erase(ws) + Erase(Wires(Erasure(false))) == links;
  }

  predicate Consistent(fn: Fn, s: State) {
    var both := s.first.Some? && s.second.Some? && s.first.value.Val? && s.second.value.Val?;
    match s.stage
    case Waiting => s.calls == [] && s.results == []
    case Saw(y) => s.first.Some? && s.first.value.Val? && s.second == Some(Val(y))
                   && s.calls == [(s.first.value.value, y)] && s.results == []
    case SawNothing => s.first.Some? && s.first.value.Val? && s.calls == [] && s.results == []
    case Parked => s.first.Some? && s.first.value.Val? && s.second.None? && s.calls == [] && s.results == []
    case Facing(y) => s.first.Some? && s.first.value.Val? && s.second == Some(y) && s.calls == [] && s.results == []
    case Erasing => s.first == Some(Gone) && s.calls == [] && s.results == []
    case Closed =>
      && s.first.Some? && (s.first.value.Val? ==> s.second.Some?)
      && s.calls == (if both then [(s.first.value.value, s.second.value.value)] else [])
      && s.results == [if both then Outcome(fn, s.first.value.value, s.second.value.value) else Gone]
  }

  lemma {:induction false} RunIsConsistent(fn: Fn, states: seq<State>, moves: seq<Move>, i: nat)
    requires Run(fn, states, moves) && i < |states|
    ensures Consistent(fn, states[i])
    decreases i
  {
    if i > 0 {
      RunIsConsistent(fn, states, moves, i - 1);
      assert Enabled(states[i - 1], moves[i - 1]);
    }
  }

  /** Exactly once, in every interleaving: once both operands have arrived and no
      step of the agent is left, its function has been called once, on the first and
      the second operand in that order, and its result is out. If either operand is
      an erasure there was no call, and the result is an erasure. */
  lemma CalledExactlyOnce(fn: Fn, states: seq<State>, moves: seq<Move>, i: nat)
    requires Run(fn, states, moves) && i < |states|
    ensures var s := states[i];
            && |s.calls| <= 1 && |s.results| <= 1
            && (s.first.Some? && s.second.Some?
                && !Enabled(s, Read) && !Enabled(s, Connect) && !Enabled(s, Finish) ==>
                  match (s.first.value, s.second.value)
                  case (Val(x), Val(y)) => s.calls == [(x, y)] && s.results == [Outcome(fn, x, y)]
                  case (_, _) => s.calls == [] && s.results == [Gone])
  {
    RunIsConsistent(fn, states, moves, i);
  }
}
