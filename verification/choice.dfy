/** `choice` and `|` of src/natsune/backend/registers.py as they are wired, from
    SerialAnd and SerialOr agents that fire when their ports have arrived: whatever
    the order, what comes out is what channels.dfy takes them to mean. */
module ChoiceWiring {
  import opened Channels

  /* ---- left | right: one SerialOr ---- */

  // The agent waits on its left; then its result is the left, or follows the right.
  datatype Selection = Unselected | TookLeft | TookRight

  datatype OrState<T> = OrState(left: Chan<T>, right: Chan<T>, selection: Selection, result: Chan<T>)

  datatype OrMove<T> = OrLeft(c: Chan<T>) | OrRight(c: Chan<T>) | OrFire | OrForward

  predicate OrEnabled<T>(s: OrState<T>, move: OrMove<T>) {
    match move
    case OrLeft(c) => s.left.Pending? && !c.Pending?
    case OrRight(c) => s.right.Pending? && !c.Pending?
    case OrFire => s.selection.Unselected? && !s.left.Pending?
    case OrForward => s.result.Pending? && s.selection.TookRight? && !s.right.Pending?
  }

  function OrStep<T>(s: OrState<T>, move: OrMove<T>): OrState<T>
    requires OrEnabled(s, move)
  {
    match move
    case OrLeft(c) => s.(left := c)
    case OrRight(c) => s.(right := c)
    case OrFire => if s.left.Live? then s.(selection := TookLeft, result := s.left) else s.(selection := TookRight)
    case OrForward => s.(result := s.right)
  }

  ghost predicate OrRun<T(!new)>(states: seq<OrState<T>>, moves: seq<OrMove<T>>) {
    && |states| == |moves| + 1 && states[0] == OrState(Pending, Pending, Unselected, Pending)
    && forall i :: 0 <= i < |moves| ==> OrEnabled(states[i], moves[i]) && states[i + 1] == OrStep(states[i], moves[i])
  }

  predicate OrFits<T(==)>(s: OrState<T>) {
    && (s.selection.TookLeft? ==> s.left.Live? && s.result == s.left)
    && (s.selection.TookRight? ==> s.left.Erased? && (s.result.Pending? || s.result == s.right))
    && (s.selection.Unselected? ==> s.result.Pending?)
  }

  lemma {:induction false} OrRunFits<T(!new)>(states: seq<OrState<T>>, moves: seq<OrMove<T>>, i: nat)
    requires OrRun(states, moves) && i < |states|
    ensures OrFits(states[i])
    decreases i
  {
    if i > 0 {
      OrRunFits(states, moves, i - 1);
      assert OrEnabled(states[i - 1], moves[i - 1]);
    }
  }

  /** In every arrival order nothing but SerialOr of what has arrived comes out, and
      where the agents are done it has. */
  lemma OrDelivers<T(!new)>(states: seq<OrState<T>>, moves: seq<OrMove<T>>, i: nat)
    requires OrRun(states, moves) && i < |states|
    ensures var s := states[i];
            && (s.result.Pending? || s.result == SerialOr(s.left, s.right))
            && (!OrEnabled(s, OrFire) && !OrEnabled(s, OrForward) ==> s.result == SerialOr(s.left, s.right))
  {
    OrRunFits(states, moves, i);
  }

  /* ---- choice: (left & in1) | (right & in2), split, each half back to its side ---- */

  /* What a SerialAnd has put out: nothing yet; an erasure, with its side's wire
     erased too; or the pair of its value and that wire. */
  datatype Paired = Unpaired | Annihilated | Pair

  datatype State<S, T> = State(
    left: Chan<S>, right: Chan<T>, and1: Paired, and2: Paired, selection: Selection, out1: Chan<S>, out2: Chan<T>)

  datatype Move<S, T> =
    | LeftArrives(l: Chan<S>)
    | RightArrives(r: Chan<T>)
    | FireAnd1
    | FireAnd2
    | FireOr
    | SplitLeft
    | SplitRight
    | AnnihilateRight

  predicate Enabled<S, T>(s: State<S, T>, move: Move<S, T>) {
    match move
    case LeftArrives(c) => s.left.Pending? && !c.Pending?
    case RightArrives(c) => s.right.Pending? && !c.Pending?
    case FireAnd1 => s.and1.Unpaired? && !s.left.Pending?
    case FireAnd2 => s.and2.Unpaired? && !s.right.Pending?
    case FireOr => s.selection.Unselected? && !s.and1.Unpaired?
    // The selected pair is split, its value sent to its own wire.
    case SplitLeft => s.selection.TookLeft? && s.out1.Pending?
    case SplitRight => s.selection.TookRight? && s.and2.Pair? && s.out2.Pending?
    // The pair that was not selected meets an erasure, which erases its wire.
    case AnnihilateRight => s.selection.TookLeft? && s.and2.Pair? && s.out2.Pending?
  }

  function Step<S, T>(s: State<S, T>, move: Move<S, T>): State<S, T>
    requires Enabled(s, move)
  {
    match move
    case LeftArrives(c) => s.(left := c)
    case RightArrives(c) => s.(right := c)
    case FireAnd1 => if s.left.Live? then s.(and1 := Pair) else s.(and1 := Annihilated, out1 := Erased)
    case FireAnd2 => if s.right.Live? then s.(and2 := Pair) else s.(and2 := Annihilated, out2 := Erased)
    case FireOr => s.(selection := if s.and1.Pair? then TookLeft else TookRight)
    case SplitLeft => s.(out1 := s.left)
    case SplitRight => s.(out2 := s.right)
    case AnnihilateRight => s.(out2 := Erased)
  }

  ghost predicate Run<S(!new), T(!new)>(states: seq<State<S, T>>, moves: seq<Move<S, T>>) {
    && |states| == |moves| + 1
    && states[0] == State(Pending, Pending, Unpaired, Unpaired, Unselected, Pending, Pending)
    && forall i :: 0 <= i < |moves| ==> Enabled(states[i], moves[i]) && states[i + 1] == Step(states[i], moves[i])
  }

  predicate Fits<S(==), T(==)>(s: State<S, T>) {
    && (s.and1.Pair? ==> s.left.Live?) && (s.and1.Annihilated? ==> s.left.Erased? && s.out1.Erased?)
    && (s.and2.Pair? ==> s.right.Live?) && (s.and2.Annihilated? ==> s.right.Erased? && s.out2.Erased?)
    && (s.selection.TookLeft? ==> s.and1.Pair?) && (s.selection.TookRight? ==> s.and1.Annihilated?)
    && (s.out1.Live? ==> s.selection.TookLeft? && s.out1 == s.left) && (s.out1.Erased? ==> s.and1.Annihilated?)
    && (s.out2.Live? ==> s.selection.TookRight? && s.out2 == s.right)
    && (s.out2.Erased? ==> s.and2.Annihilated? || (s.and2.Pair? && s.selection.TookLeft?))
  }

  lemma {:induction false} RunFits<S(!new), T(!new)>(states: seq<State<S, T>>, moves: seq<Move<S, T>>, i: nat)
    requires Run(states, moves) && i < |states|
    ensures Fits(states[i])
    decreases i
  {
    if i > 0 {
      RunFits(states, moves, i - 1);
      assert Enabled(states[i - 1], moves[i - 1]);
    }
  }

  predicate Done<S, T>(s: State<S, T>) {
    && !Enabled(s, FireAnd1) && !Enabled(s, FireAnd2) && !Enabled(s, FireOr)
    && !Enabled(s, SplitLeft) && !Enabled(s, SplitRight) && !Enabled(s, AnnihilateRight)
  }

  /** The same for choice: in every arrival order each side gets nothing but what
      Choice gives it, and where the agents are done it has it; so a side is erased
      at once when its own channel is, and a live right waits for the left. */
  lemma ChoiceDelivers<S(!new), T(!new)>(states: seq<State<S, T>>, moves: seq<Move<S, T>>, i: nat)
    requires Run(states, moves) && i < |states|
    ensures var s := states[i];
            var (c1, c2) := Choice(s.left, s.right);
            && (s.out1.Pending? || s.out1 == c1) && (s.out2.Pending? || s.out2 == c2)
            && (Done(s) ==> s.out1 == c1 && s.out2 == c2)
  {
    RunFits(states, moves, i);
  }

  // Steps of the agents still to come.
  function StepsLeft<S, T>(s: State<S, T>): nat {
    (if s.and1.Unpaired? then 1 else 0) + (if s.and2.Unpaired? then 1 else 0)
    + (if s.selection.Unselected? then 1 else 0)
    + (if s.out1.Pending? then 1 else 0) + if s.out2.Pending? then 1 else 0
  }

  lemma AgentsStop<S, T>(s: State<S, T>, move: Move<S, T>)
    requires Enabled(s, move) && !move.LeftArrives? && !move.RightArrives? && Fits(s)
    ensures StepsLeft(Step(s, move)) < StepsLeft(s)
  {
  }
}
