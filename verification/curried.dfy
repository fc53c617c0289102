/** CurriedProcess of src/natsune/backend/registers.py: a two-state automaton that
    walks a tuple chain and fires its destination once every arm has arrived. */
module Curried {
  import opened Options

  // What arrives on an arm: data, a plain erasure, or an erasure with an error.
  datatype Arm = Data(id: int) | Plain | Failure(error: int)

  // The port after the last cell of the chain.
  datatype Ending = PlainEnd | FailedEnd(error: int) | NoTuple

  // A chain x(arm, x(arm, ...)), and what closes it.
  datatype Chain = Chain(arms: seq<Arm>, ending: Ending)

  // What reaches the destination: the arms in order, or one erasure.
  datatype Outcome = Fired(arms: seq<Arm>) | Failed(reason: Reason)
  datatype Reason = ArmFailed(error: int) | Contracted | ChainFailed(error: int) | Corrupted

  /* find_tuple waits for the spine's next cell, check_arms for that cell's arm. */
  datatype Stage = FindTuple | CheckArms | Finished(outcome: Outcome)

  type Wire = nat

  /* The accumulator: a chain of tuples under construction. Its head is wire 0; each
     cell is put on the tail, and its arm on the cell's left wire when it comes. */
  datatype Accumulator = Accumulator(
    tuples: map<Wire, (Wire, Wire)>, values: map<Wire, Arm>, tail: Wire, left: Wire, right: Wire, next: Wire)

  const HEAD: Wire := 0
  const NO_CELLS: Accumulator := Accumulator(map[], map[], HEAD, HEAD, HEAD, 1)

  // connector.tuplate of the tail.
  function Tuplate(acc: Accumulator): Accumulator {
    acc.(tuples := acc.tuples[acc.tail := (acc.next, acc.next + 1)],
         left := acc.next, right := acc.next + 1, next := acc.next + 2)
  }

  // The arm goes on the left, and the right is the new tail.
  function PutArm(acc: Accumulator, arm: Arm): Accumulator {
    acc.(values := acc.values[acc.left := arm], tail := acc.right)
  }

  // The arms that are read from w on, to the end of the chain: at most n of them.
  function ReadFrom(acc: Accumulator, w: Wire, n: nat): seq<Arm>
    decreases n
  {
    if n == 0 || w !in acc.tuples || acc.tuples[w].0 !in acc.values then []
    else [acc.values[acc.tuples[w].0]] + ReadFrom(acc, acc.tuples[w].1, n - 1)
  }

  // What connecting the head to the invoker, and erasing the tail, hands over.
  function HandOver(acc: Accumulator): seq<Arm> {
    ReadFrom(acc, HEAD, |acc.tuples|)
  }

  // Spine cell i and arm i may have arrived or not; `at` is the arm to be collected.
  datatype State = State(spines: set<nat>, arms: set<nat>, stage: Stage, at: nat, acc: Accumulator)

  datatype Move = SpineArrives(cell: nat) | ArmArrives(cell: nat) | Call

  const START: State := State({}, {}, FindTuple, 0, NO_CELLS)

  predicate Enabled(c: Chain, s: State, move: Move) {
    match move
    case SpineArrives(i) => i <= |c.arms| && i !in s.spines
    case ArmArrives(i) => i < |c.arms| && i !in s.arms
    case Call =>
      match s.stage
      case FindTuple => s.at in s.spines && s.at <= |c.arms|
      case CheckArms => s.at in s.arms && s.at < |c.arms|
      case Finished(_) => false
  }

  predicate Blocks(arm: Arm, contraction: bool) {
    arm.Failure? || (arm.Plain? && contraction)
  }

  function Verdict(arm: Arm): Reason
    requires !arm.Data?
  {
    match arm
    case Failure(e) => ArmFailed(e)
    case Plain => Contracted
  }

  function Ended(ending: Ending, acc: seq<Arm>): Outcome {
    match ending
    case PlainEnd => Fired(acc)
    case FailedEnd(e) => Failed(ChainFailed(e))
    case NoTuple => Failed(Corrupted)
  }

  // CurriedProcess.__call__ on whatever has arrived.
  function Step(c: Chain, contraction: bool, s: State, move: Move): State
    requires Enabled(c, s, move)
  {
    match move
    case SpineArrives(i) => s.(spines := s.spines + {i})
    case ArmArrives(i) => s.(arms := s.arms + {i})
    case Call =>
      match s.stage
      case FindTuple =>
        if s.at < |c.arms| then s.(stage := CheckArms, acc := Tuplate(s.acc))
        else s.(stage := Finished(Ended(c.ending, HandOver(s.acc))))
      case CheckArms =>
        if Blocks(c.arms[s.at], contraction) then s.(stage := Finished(Failed(Verdict(c.arms[s.at]))))
        else s.(stage := FindTuple, at := s.at + 1, acc := PutArm(s.acc, c.arms[s.at]))
  }

  ghost predicate Run(c: Chain, contraction: bool, states: seq<State>, moves: seq<Move>) {
    && |states| == |moves| + 1 && states[0] == START
    && forall i :: 0 <= i < |moves| ==>
         Enabled(c, states[i], moves[i]) && states[i + 1] == Step(c, contraction, states[i], moves[i])
  }

  /* ---- What should come out ---- */

  // The lowest blocking arm decides; without one, the end of the chain.
  function Expected(c: Chain, contraction: bool): Outcome {
    var i := FirstBlocking(c.arms, contraction);
    if i < |c.arms| then Failed(Verdict(c.arms[i])) else Ended(c.ending, c.arms)
  }

  function FirstBlocking(arms: seq<Arm>, contraction: bool): (i: nat)
    ensures i <= |arms|
    ensures i < |arms| ==> Blocks(arms[i], contraction)
    ensures forall j :: 0 <= j < i ==> !Blocks(arms[j], contraction)
  {
    if arms == [] || Blocks(arms[0], contraction) then 0 else 1 + FirstBlocking(arms[1..], contraction)
  }

  // Everything up to the deciding arm, or all of it, has arrived.
  predicate Complete(c: Chain, contraction: bool, s: State) {
    var i := FirstBlocking(c.arms, contraction);
    && (forall j :: 0 <= j <= i ==> j in s.spines)
    && (forall j :: 0 <= j < |c.arms| && j <= i ==> j in s.arms)
  }

  // The wire that the k-th cell is on.
  function CellWire(k: nat): Wire {
    2 * k
  }

  // The accumulator holds these arms, in order, and `open` cells more.
  ghost predicate Holds(acc: Accumulator, arms: seq<Arm>, open: nat) {
    var n := |arms| + open;
    && acc.tail == CellWire(|arms|) && acc.next == CellWire(n) + 1
    && (forall w: Wire :: w in acc.tuples <==> w % 2 == 0 && w < CellWire(n))
    && (forall k: nat :: k < n ==> CellWire(k) in acc.tuples && acc.tuples[CellWire(k)] == (2 * k + 1, CellWire(k + 1)))
    && (forall k: nat :: k < |arms| ==> 2 * k + 1 in acc.values && acc.values[2 * k + 1] == arms[k])
    && (open == 1 ==> acc.left == 2 * |arms| + 1 && acc.right == CellWire(|arms| + 1))
  }

  lemma TuplateHolds(acc: Accumulator, arms: seq<Arm>)
    requires Holds(acc, arms, 0)
    ensures Holds(Tuplate(acc), arms, 1)
  {
  }

  lemma PutArmHolds(acc: Accumulator, arms: seq<Arm>, arm: Arm)
    requires Holds(acc, arms, 1)
    ensures Holds(PutArm(acc, arm), arms + [arm], 0)
  {
  }

  lemma {:induction false} ReadsInOrder(acc: Accumulator, arms: seq<Arm>, k: nat, n: nat)
    requires Holds(acc, arms, 0) && k <= |arms| && n >= |arms| - k
    ensures ReadFrom(acc, CellWire(k), n) == arms[k..]
    decreases n
  {
    if k < |arms| {
      ReadsInOrder(acc, arms, k + 1, n - 1);
      assert arms[k..] == [arms[k]] + arms[k + 1..];
    }
  }

  lemma {:induction false} EnoughCells(m: map<Wire, (Wire, Wire)>, n: nat)
    requires forall k: nat :: k < n ==> CellWire(k) in m
    ensures |m| >= n
  {
    if n > 0 {
      var rest := m - {CellWire(n - 1)};
      assert m.Keys == rest.Keys + {CellWire(n - 1)};
      EnoughCells(rest, n - 1);
    }
  }

  /** What is handed over is the arms put in, in order. */
  lemma HandsOverInOrder(acc: Accumulator, arms: seq<Arm>)
    requires Holds(acc, arms, 0)
    ensures HandOver(acc) == arms
  {
    EnoughCells(acc.tuples, |arms|);
    ReadsInOrder(acc, arms, 0, |acc.tuples|);
  }

  // What has been collected is the chain so far, and it has all arrived.
  ghost predicate Collected(c: Chain, contraction: bool, s: State) {
    && s.at <= FirstBlocking(c.arms, contraction)
    && (forall j :: 0 <= j < s.at ==> j in s.spines && j in s.arms)
    && (s.stage.FindTuple? ==> Holds(s.acc, c.arms[..s.at], 0))
    && (s.stage.CheckArms? ==> Holds(s.acc, c.arms[..s.at], 1) && s.at in s.spines && s.at < |c.arms|)
    && (s.stage.Finished? ==> s.stage.outcome == Expected(c, contraction) && Complete(c, contraction, s))
  }

  lemma StepCollects(c: Chain, contraction: bool, s: State, move: Move)
    requires Enabled(c, s, move) && Collected(c, contraction, s)
    ensures Collected(c, contraction, Step(c, contraction, s, move))
  {
    hide Holds, Tuplate, PutArm, HandOver;
    if move.Call? && s.stage.FindTuple? {
      if s.at < |c.arms| {
        TuplateHolds(s.acc, c.arms[..s.at]);
      } else {
        assert c.arms[..s.at] == c.arms && s.at == FirstBlocking(c.arms, contraction);
        HandsOverInOrder(s.acc, c.arms);
      }
    } else if move.Call? {
      if Blocks(c.arms[s.at], contraction) {
        assert s.at == FirstBlocking(c.arms, contraction);
      } else {
        PutArmHolds(s.acc, c.arms[..s.at], c.arms[s.at]);
        assert c.arms[..s.at] + [c.arms[s.at]] == c.arms[..s.at + 1];
      }
    }
  }

  lemma {:induction false} RunCollects(c: Chain, contraction: bool, states: seq<State>, moves: seq<Move>, i: nat)
    requires Run(c, contraction, states, moves) && i < |states|
    ensures Collected(c, contraction, states[i])
    decreases i
  {
    if i == 0 {
      assert c.arms[..0] == [];
    } else {
      RunCollects(c, contraction, states, moves, i - 1);
      StepCollects(c, contraction, states[i - 1], moves[i - 1]);
    }
  }

  /** All or nothing, in every arrival order: the destination receives the expected
      outcome, and only once everything that decides it has arrived. In particular
      it is fired with all the arms in order, or gets the lowest-index error. */
  lemma BarrierHolds(c: Chain, contraction: bool, states: seq<State>, moves: seq<Move>, i: nat)
    requires Run(c, contraction, states, moves) && i < |states| && states[i].stage.Finished?
    ensures states[i].stage.outcome == Expected(c, contraction) && Complete(c, contraction, states[i])
    ensures states[i].stage.outcome.Fired? ==>
              && states[i].stage.outcome.arms == c.arms && c.ending.PlainEnd?
              && forall j :: 0 <= j < |c.arms| ==> j in states[i].arms && !Blocks(c.arms[j], contraction)
  {
    RunCollects(c, contraction, states, moves, i);
  }

  /** And it is not left waiting: once what decides has arrived, either the
      destination has its outcome or the automaton can move. */
  lemma BarrierOpens(c: Chain, contraction: bool, states: seq<State>, moves: seq<Move>, i: nat)
    requires Run(c, contraction, states, moves) && i < |states| && Complete(c, contraction, states[i])
    ensures states[i].stage.Finished? || Enabled(c, states[i], Call)
  {
    RunCollects(c, contraction, states, moves, i);
  }

  // Calls still to come: each enabled call lowers it, so the automaton ends.
  function CallsLeft(c: Chain, s: State): int {
    match s.stage
    case FindTuple => 2 * (|c.arms| - s.at) + 2
    case CheckArms => 2 * (|c.arms| - s.at) + 1
    case Finished(_) => 0
  }

  lemma CallsEnd(c: Chain, contraction: bool, s: State)
    requires Collected(c, contraction, s) && Enabled(c, s, Call)
    ensures 0 <= CallsLeft(c, Step(c, contraction, s, Call)) < CallsLeft(c, s)
  {
  }

  /* ---- The outcome, by what the arms are ---- */

  // The destination goes on after this arm: data, or a plain erasure where these
  // are passed on.
  predicate Passes(arm: Arm, contraction: bool) {
    match arm
    case Data(_) => true
    case Plain => !contraction
    case Failure(_) => false
  }

  // Every arm before i passes.
  predicate AllPass(arms: seq<Arm>, contraction: bool, i: nat)
    requires i <= |arms|
  {
    forall j :: 0 <= j < i ==> Passes(arms[j], contraction)
  }

  lemma PassingIsNotBlocking(c: Chain, contraction: bool, i: nat)
    requires i < |c.arms| && AllPass(c.arms, contraction, i) && !Passes(c.arms[i], contraction)
    ensures FirstBlocking(c.arms, contraction) == i
  {
    assert Blocks(c.arms[i], contraction);
  }

  lemma BlockingIsFirst(c: Chain, contraction: bool)
    ensures var k := FirstBlocking(c.arms, contraction);
            AllPass(c.arms, contraction, k) && (k < |c.arms| ==> !Passes(c.arms[k], contraction))
  {
  }

  /** What an automaton that is done has handed to its destination, in every order of
      arrivals: an arm's error, if it is a failure and all arms before it pass; the
      contraction, at a plain arm under contraction after arms that all pass; and
      when all pass, the arms, the chain's error, or its corruption. */
  lemma OutcomeExactly(c: Chain, contraction: bool, states: seq<State>, moves: seq<Move>, i: nat)
    requires Run(c, contraction, states, moves) && i < |states| && states[i].stage.Finished?
    ensures var o := states[i].stage.outcome;
            && (forall e :: o == Failed(ArmFailed(e)) <==>
                  exists k: nat :: k < |c.arms| && c.arms[k] == Failure(e) && AllPass(c.arms, contraction, k))
            && (o == Failed(Contracted) <==>
                  contraction && exists k: nat :: k < |c.arms| && c.arms[k] == Plain && AllPass(c.arms, contraction, k))
            && (forall e :: o == Failed(ChainFailed(e)) <==>
                  c.ending == FailedEnd(e) && AllPass(c.arms, contraction, |c.arms|))
            && (o == Failed(Corrupted) <==> c.ending == NoTuple && AllPass(c.arms, contraction, |c.arms|))
            && (o.Fired? <==> c.ending == PlainEnd && AllPass(c.arms, contraction, |c.arms|))
            && (o.Fired? ==> o.arms == c.arms)
  {
    BarrierHolds(c, contraction, states, moves, i);
    OutcomeIs(c, contraction);
  }

  lemma OutcomeIs(c: Chain, contraction: bool)
    ensures var o := Expected(c, contraction);
            && (forall e :: o == Failed(ArmFailed(e)) <==>
                  exists k: nat :: k < |c.arms| && c.arms[k] == Failure(e) && AllPass(c.arms, contraction, k))
            && (o == Failed(Contracted) <==>
                  contraction && exists k: nat :: k < |c.arms| && c.arms[k] == Plain && AllPass(c.arms, contraction, k))
            && (forall e :: o == Failed(ChainFailed(e)) <==>
                  c.ending == FailedEnd(e) && AllPass(c.arms, contraction, |c.arms|))
            && (o == Failed(Corrupted) <==> c.ending == NoTuple && AllPass(c.arms, contraction, |c.arms|))
            && (o.Fired? <==> c.ending == PlainEnd && AllPass(c.arms, contraction, |c.arms|))
            && (o.Fired? ==> o.arms == c.arms)
  {
    BlockingIsFirst(c, contraction);
    forall k: nat | k < |c.arms| && AllPass(c.arms, contraction, k) && !Passes(c.arms[k], contraction)
      ensures k == FirstBlocking(c.arms, contraction)
    {
      PassingIsNotBlocking(c, contraction, k);
    }
  }
}
