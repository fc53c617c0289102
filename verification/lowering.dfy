/** lower_statements, lower_if, lower_loop and branch_flow of
    src/natsune/backend/lowering.py. */
module Lowering {
  import opened Options
  import opened Ir
  import opened Flow

  // What is emitted after the last statement of an open list.
  datatype Tail = NoTail | FinishTail | ReturnTail

  function TailOps(tail: Tail): seq<Op> {
    match tail
    case NoTail => []
    case FinishTail => [SendFinish]
    case ReturnTail => [SendReturn(None)]
  }

  function TailOf(b: seq<Stmt>, exits: Exits): Tail {
    if HasCloser(b) then NoTail else if Fallthrough in exits then FinishTail else ReturnTail
  }

  function BodyTail(b: seq<Stmt>): Tail {
    if HasCloser(b) then NoTail else FinishTail
  }

  function LowerBody(b: seq<Stmt>): BodyFlow
    decreases b, 3
  {
    BodyFlow(LowerStatements(b, BodyTail(b)), BodyExits(b))
  }

  function LowerStatement(st: Stmt): Op
    decreases st, 1
  {
    match st
    case Assign(targets, value) => Write(targets, value)
    case AugAssign(target, op, operand) => Update(target, op, operand)
    case ExprStmt(value) => Discard(value)
    case Return(result) => SendReturn(result)
    case Break => SendBreak
    case Continue => SendContinue
    case If(test, thenBody, elseBody) => Branch(test, LowerBody(thenBody), LowerBody(elseBody), StmtExits(st))
    case For(target, iter, _, _) => Iterate(LowerLoop(st))
    case While(test, _, _) => Iterate(LowerLoop(st))
  }

  function LowerLoop(st: Stmt): LoopAgent
    requires IsLoop(st)
    decreases st, 0
  {
    LoopAgent(if st.For? then ForStep(st.target, st.iter) else WhileStep(st.test),
              LowerBody(st.body), LowerBody(st.orelse), StmtExits(st))
  }

  function Prepend(op: Op, layers: seq<Layer>): (r: seq<Layer>)
    requires layers != []
    ensures r != []
  {
    [Layer([op] + layers[0].ops)] + layers[1..]
  }

  // A new layer starts after every conditional and every loop.
  function LowerStatements(b: seq<Stmt>, tail: Tail): (layers: seq<Layer>)
    ensures layers != []
    decreases b, 2
  {
    if b == [] then [Layer(TailOps(tail))]
    else if IsCompound(b[0]) then [Layer([LowerStatement(b[0])])] + LowerStatements(b[1..], tail)
    else Prepend(LowerStatement(b[0]), LowerStatements(b[1..], tail))
  }

  // The function body is closed with the function's exits.
  function LowerFunction(b: seq<Stmt>): BodyFlow {
    BodyFlow(LowerStatements(b, TailOf(b, FunctionExits(b))), FunctionExits(b))
  }

  // The emitted layers so far, the open one and what the rest will emit.
  function Emitted(layers: seq<Layer>, open: seq<Op>, rest: seq<Layer>): seq<Layer>
    requires rest != []
  {
    layers + [Layer(open + rest[0].ops)] + rest[1..]
  }

  lemma EmittedNothing(rest: seq<Layer>)
    requires rest != []
    ensures Emitted([], [], rest) == rest
  {
    assert [] + rest[0].ops == rest[0].ops;
  }

  /** lower_statements: one pass that rebinds the open layer. The body has been
      validated, so its jumps are closers and an open body's exits hold
      FALLTHROUGH or RETURN: neither assertion of the source can fail. */
  method LowerStatementList(b: seq<Stmt>, exits: Exits) returns (layers: seq<Layer>)
    requires WellClosed(b)
    requires exits == BodyExits(b) || exits == FunctionExits(b)
    ensures layers == LowerStatements(b, TailOf(b, exits))
  {
    var done, open := [], [];
    var index := 0;
    ghost var tail := TailOf(b, exits);
    EmittedNothing(LowerStatements(b, tail));
    assert b[0..] == b;
    while index < |b|
      invariant 0 <= index <= |b|
      invariant LowerStatements(b, tail) == Emitted(done, open, LowerStatements(b[index..], tail))
    {
      var st := b[index];
      assert b[index..][0] == st && b[index..][1..] == b[index + 1..];
      ghost var rest := LowerStatements(b[index + 1..], tail);
      if IsCompound(st) {
        done := done + [Layer(open + [LowerStatement(st)])];
        open := [];
        EmittedNothing(rest);
        assert Emitted(done, open, rest) == done + rest;
      } else {
        if IsJump(st) {
          JumpCloses(b, index);
        }
        assert open + ([LowerStatement(st)] + rest[0].ops) == open + [LowerStatement(st)] + rest[0].ops;
        open := open + [LowerStatement(st)];
      }
      index := index + 1;
    }
    assert b[index..] == [];
    assert LowerStatements(b, tail) == done + [Layer(open + TailOps(tail))] by {
      assert LowerStatements([], tail)[1..] == [];
    }
    assert open + [] == open;
    if !HasCloser(b) {
      OpenBodyFallsThrough(b);
      if Fallthrough in exits {
        open := open + [SendFinish];
      } else {
        assert Returns in exits;
        open := open + [SendReturn(None)];
      }
    }
    layers := done + [Layer(open)];
  }

  /* The assertion `body.closer is stmt`: in a validated body a jump is the
     first statement that never returns flow. */
  lemma {:induction false} JumpCloses(b: seq<Stmt>, index: nat)
    requires WellClosed(b) && index < |b| && IsJump(b[index])
    ensures HasCloser(b)
    ensures forall i :: 0 <= i < index ==> !IsCloser(b[i])
  {
    if index > 0 {
      var later := b[1..][index - 1];
      if IsCloser(b[0]) {
        assert false;
      } else {
        JumpCloses(b[1..], index - 1);
        forall i | 0 <= i < index ensures !IsCloser(b[i]) {
          if i > 0 { assert b[i] == b[1..][i - 1]; }
        }
      }
    }
  }
}
