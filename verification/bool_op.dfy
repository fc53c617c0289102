/** Concurrent `and` and `or`: ConcurrentValueMerge and AmbiguousPair of
    src/natsune/backend/control_flow.py, chained as lowering.py chains them. */
module BoolOps {
  import opened Ir
  import opened Channels

  datatype BoolOp = And | Or

  type Truth = Value -> bool

  // should_shortcircuit: operator.not_ for `and`, operator.truth for `or`.
  predicate Shorts(op: BoolOp, truthy: Truth, v: Value) {
    if op.And? then !truthy(v) else truthy(v)
  }

  // true_and and true_or.
  function Combined(op: BoolOp, truthy: Truth, a: Value, b: Value): Value {
    match op
    case And => if truthy(a) then b else a
    case Or => if truthy(a) then a else b
  }

  /* One merge. Whichever operand arrives first is tested; `leftFirst` decides when
     both have arrived. A pending operand never arrives, an erased one raised. */
  function Stage(op: BoolOp, truthy: Truth, left: Chan<Value>, right: Chan<Value>, leftFirst: bool): Chan<Value> {
    var (first, second) :=
      if right.Pending? || (leftFirst && !left.Pending?) then (left, right) else (right, left);
    match first
    case Pending => Pending
    case Erased => Erased
    case Live(v) =>
      if Shorts(op, truthy, v) then first
      else match second
        case Live(u) => Live(Combined(op, truthy, v, u))
        case _ => second
  }

  // An n-ary operation: the accumulator meets one operand after the other.
  function Stages(op: BoolOp, truthy: Truth, operands: seq<Chan<Value>>, order: nat -> bool): Chan<Value>
    requires operands != []
  {
    var last := |operands| - 1;
    if last == 0 then operands[0]
    else Stage(op, truthy, Stages(op, truthy, operands[..last], order), operands[last], order(last))
  }

  /** The loop of from_expr over the operands after the first. */
  method LowerBoolOp(op: BoolOp, truthy: Truth, operands: seq<Chan<Value>>, order: nat -> bool)
    returns (acc: Chan<Value>)
    requires operands != []
    ensures acc == Stages(op, truthy, operands, order)
  {
    acc := operands[0];
    var i := 1;
    while i < |operands|
      invariant 1 <= i <= |operands|
      invariant acc == Stages(op, truthy, operands[..i], order)
    {
      assert operands[..i + 1][..i] == operands[..i];
      acc := Stage(op, truthy, acc, operands[i], order(i));
      i := i + 1;
    }
    assert operands[..i] == operands;
  }

  // Python's own and/or: the first operand that decides, else the last.
  function Sequential(op: BoolOp, truthy: Truth, vs: seq<Value>): Value
    requires vs != []
  {
    if |vs| == 1 || Shorts(op, truthy, vs[0]) then vs[0] else Sequential(op, truthy, vs[1..])
  }

  predicate Decides(op: BoolOp, truthy: Truth, c: Chan<Value>) {
    c.Live? && Shorts(op, truthy, c.v)
  }

  predicate SomeDecides(op: BoolOp, truthy: Truth, operands: seq<Chan<Value>>) {
    exists i :: 0 <= i < |operands| && Decides(op, truthy, operands[i])
  }

  predicate AllLive(operands: seq<Chan<Value>>) {
    forall i :: 0 <= i < |operands| ==> operands[i].Live?
  }

  // Some operand decides exactly when one of the first ones or the last does.
  lemma DecidesSplit(op: BoolOp, truthy: Truth, operands: seq<Chan<Value>>)
    requires |operands| > 0
    ensures var last := |operands| - 1;
            && (SomeDecides(op, truthy, operands) <==>
                SomeDecides(op, truthy, operands[..last]) || Decides(op, truthy, operands[last]))
            && (AllLive(operands) <==> AllLive(operands[..last]) && operands[last].Live?)
  {
    var last := |operands| - 1;
    var front := operands[..last];
    if i :| 0 <= i < |operands| && Decides(op, truthy, operands[i]) {
      assert i < last ==> Decides(op, truthy, front[i]);
    }
    if i :| 0 <= i < |front| && Decides(op, truthy, front[i]) {
      assert Decides(op, truthy, operands[i]);
    }
    assert forall i :: 0 <= i < last ==> front[i] == operands[i];
  }

  /** For every arrival order: a result is one of the operands, and it decides the
      operation unless every operand arrived and none decides. An error only comes
      from an operand's. Without errors there is a result exactly when some operand
      decides or all of them arrive: the others are then not needed. */
  lemma {:induction false} StagesExactly(op: BoolOp, truthy: Truth, operands: seq<Chan<Value>>, order: nat -> bool)
    requires operands != []
    ensures var r := Stages(op, truthy, operands, order);
            && (r.Live? ==> r in operands)
            && (r.Live? ==> Shorts(op, truthy, r.v) || (AllLive(operands) && !SomeDecides(op, truthy, operands)))
            && (r.Erased? ==> Erased in operands)
            && (Erased !in operands ==> (r.Live? <==> SomeDecides(op, truthy, operands) || AllLive(operands)))
    decreases |operands|
  {
    DecidesSplit(op, truthy, operands);
    if |operands| > 1 {
      StagesExactly(op, truthy, operands[..|operands| - 1], order);
    }
  }

  lemma {:induction false} SequentialDecides(op: BoolOp, truthy: Truth, vs: seq<Value>)
    requires vs != []
    ensures Shorts(op, truthy, Sequential(op, truthy, vs)) <==> exists i :: 0 <= i < |vs| && Shorts(op, truthy, vs[i])
    decreases |vs|
  {
    if |vs| > 1 && !Shorts(op, truthy, vs[0]) {
      SequentialDecides(op, truthy, vs[1..]);
      if i :| 0 <= i < |vs| && Shorts(op, truthy, vs[i]) {
        assert Shorts(op, truthy, vs[1..][i - 1]);
      }
    }
  }

  /** When every operand yields a value, the result has the truth of Python's
      sequential operation, in whatever order they arrive. */
  lemma TruthIsPythons(op: BoolOp, truthy: Truth, vs: seq<Value>, operands: seq<Chan<Value>>, order: nat -> bool)
    requires vs != [] && |operands| == |vs| && forall i :: 0 <= i < |vs| ==> operands[i] == Live(vs[i])
    ensures var r := Stages(op, truthy, operands, order);
            r.Live? && r.v in vs && truthy(r.v) == truthy(Sequential(op, truthy, vs))
  {
    StagesExactly(op, truthy, operands, order);
    SequentialDecides(op, truthy, vs);
    var r := Stages(op, truthy, operands, order);
    assert AllLive(operands) && Erased !in operands;
    if i :| 0 <= i < |vs| && Shorts(op, truthy, vs[i]) {
      assert Decides(op, truthy, operands[i]);
    }
    if Shorts(op, truthy, r.v) {
      var i :| 0 <= i < |operands| && operands[i] == r;
      assert Shorts(op, truthy, vs[i]);
    }
  }

  /* ---- Which operand it is ---- */

  // The first operand that decides, or the last operand.
  predicate PickedFirst(op: BoolOp, truthy: Truth, vs: seq<Value>, k: nat) {
    k < |vs| && (k == |vs| - 1 || Shorts(op, truthy, vs[k])) && forall j :: 0 <= j < k ==> !Shorts(op, truthy, vs[j])
  }

  // The last operand that decides, or the first operand.
  predicate PickedLast(op: BoolOp, truthy: Truth, vs: seq<Value>, k: nat) {
    k < |vs| && (k == 0 || Shorts(op, truthy, vs[k])) && forall j :: k < j < |vs| ==> !Shorts(op, truthy, vs[j])
  }

  lemma {:induction false} SequentialPicks(op: BoolOp, truthy: Truth, vs: seq<Value>, k: nat)
    requires PickedFirst(op, truthy, vs, k)
    ensures Sequential(op, truthy, vs) == vs[k]
    decreases |vs|
  {
    if k > 0 {
      forall j | 0 <= j < k - 1 ensures !Shorts(op, truthy, vs[1..][j]) {
        assert vs[1..][j] == vs[j + 1];
      }
      SequentialPicks(op, truthy, vs[1..], k - 1);
    }
  }

  /** Where the accumulator always arrives before the next operand the result is
      Python's own, the very operand; where it always arrives after, it is what Python
      gives for the operands in reverse. */
  lemma {:induction false} ArrivalPicks(op: BoolOp, truthy: Truth, vs: seq<Value>, operands: seq<Chan<Value>>,
                                        order: nat -> bool, leftFirst: bool, k: nat)
    requires vs != [] && |operands| == |vs| && forall i :: 0 <= i < |vs| ==> operands[i] == Live(vs[i])
    requires forall i :: order(i) == leftFirst
    requires if leftFirst then PickedFirst(op, truthy, vs, k) else PickedLast(op, truthy, vs, k)
    ensures Stages(op, truthy, operands, order) == Live(vs[k])
    ensures leftFirst ==> Stages(op, truthy, operands, order) == Live(Sequential(op, truthy, vs))
    decreases |vs|
  {
    var last := |vs| - 1;
    if last > 0 {
      var k' := if !leftFirst && k == last then LastPick(op, truthy, vs[..last])
                else if k == last then last - 1 else k;
      ArrivalPicks(op, truthy, vs[..last], operands[..last], order, leftFirst, k');
    }
    if leftFirst {
      SequentialPicks(op, truthy, vs, k);
    }
  }

  function LastPick(op: BoolOp, truthy: Truth, vs: seq<Value>): (k: nat)
    requires vs != []
    ensures PickedLast(op, truthy, vs, k)
  {
    var last := |vs| - 1;
    if last == 0 || Shorts(op, truthy, vs[last]) then last else LastPick(op, truthy, vs[..last])
  }
}
