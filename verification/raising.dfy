/** What the lowered flow does with a run that raises where control waits for the
    value: in a test, an iterable or a returned expression. */
module Raising {
  import opened Options
  import opened Ir
  import opened Python
  import opened Channels
  import opened Flow
  import opened Lowering
  import opened Orderliness
  import opened LoweringCorrect
  import opened LoweringLimits

  /* ---- Runs that stop outside of every loop turn ---- */

  predicate BodyStops(w: World, b: seq<Stmt>, s: Store, n: nat)
    decreases n, b, 3
  {
    b != []
    && match RunStmt(w, b[0], s, n)
       case Done(Finish(s')) => BodyStops(w, b[1..], s', n)
       case _ => StmtStops(w, b[0], s, n) && (b[0].Return? ==> StraightLine(b[1..]))
  }

  predicate StmtStops(w: World, st: Stmt, s: Store, n: nat)
    decreases n, st, 2
  {
    match st
    case Return(result) => result.Some? && Eval(result.value, s).None?
    case If(test, thenBody, elseBody) =>
      Eval(test, s).None? || BodyStops(w, if w.truthy(Eval(test, s).value) then thenBody else elseBody, s, n)
    case For(_, iter, _, _) =>
      n > 0
      && (Eval(iter, s).None? || w.iter(Eval(iter, s).value).None?
          || LoopStops(w, st, w.iter(Eval(iter, s).value), s, n))
    case While(_, _, _) => LoopStops(w, st, None, s, n)
    case _ => false
  }

  // At the header, or in the else clause right after it.
  predicate LoopStops(w: World, st: Stmt, it: Option<Value>, s: Store, n: nat)
    requires IsLoop(st)
    decreases n, st, 1
  {
    n > 0
    && match Advance(w, st, it, s)
       case Stuck => true
       case Exhausted(s') => BodyStops(w, st.orelse, s', n - 1)
       case Enter(_, _) => false
  }

  // In a turn, or after at least one.
  predicate StopsAfterTurn(w: World, st: Stmt, it: Option<Value>, s: Store, n: nat)
    requires IsLoop(st)
    decreases n
  {
    n > 0
    && match Advance(w, st, it, s)
       case Enter(s', it') =>
         || BodyStops(w, st.body, s', n - 1)
         || (match RunBody(w, st.body, s', n - 1)
             case Done(Finish(s'')) => LoopStops(w, st, it', s'', n - 1) || StopsAfterTurn(w, st, it', s'', n - 1)
             case Done(Cont(s'')) => LoopStops(w, st, it', s'', n - 1) || StopsAfterTurn(w, st, it', s'', n - 1)
             case _ => false)
       case _ => false
  }

  lemma {:induction false} BodyRaises(w: World, b: seq<Stmt>, s: Store, n: nat)
    requires BodyStops(w, b, s, n)
    ensures RunBody(w, b, s, n) == Raised
    decreases n, b, 3
  {
    var first := RunStmt(w, b[0], s, n);
    if first.Done? && first.outcome.Finish? {
      BodyRaises(w, b[1..], first.outcome.store, n);
    } else {
      StmtRaises(w, b[0], s, n);
    }
  }

  lemma {:induction false} StmtRaises(w: World, st: Stmt, s: Store, n: nat)
    requires StmtStops(w, st, s, n)
    ensures RunStmt(w, st, s, n) == Raised
    decreases n, st, 2
  {
    match st
    case If(test, thenBody, elseBody) =>
      if Eval(test, s).Some? {
        BodyRaises(w, if w.truthy(Eval(test, s).value) then thenBody else elseBody, s, n);
      }
    case For(_, iter, _, _) =>
      if Eval(iter, s).Some? && w.iter(Eval(iter, s).value).Some? {
        LoopRaises(w, st, w.iter(Eval(iter, s).value), s, n);
      }
    case While(_, _, _) => LoopRaises(w, st, None, s, n);
    case _ =>
  }

  lemma {:induction false} LoopRaises(w: World, st: Stmt, it: Option<Value>, s: Store, n: nat)
    requires IsLoop(st) && LoopStops(w, st, it, s, n)
    ensures RunLoop(w, st, it, s, n) == Raised
    decreases n, st, 1
  {
    var turn := Advance(w, st, it, s);
    if turn.Exhausted? {
      BodyRaises(w, st.orelse, turn.store, n - 1);
    }
  }

  lemma {:induction false} TurnRaises(w: World, st: Stmt, it: Option<Value>, s: Store, n: nat)
    requires IsLoop(st) && StopsAfterTurn(w, st, it, s, n)
    ensures RunLoop(w, st, it, s, n) == Raised
    decreases n
  {
    var turn := Advance(w, st, it, s);
    if BodyStops(w, st.body, turn.store, n - 1) {
      BodyRaises(w, st.body, turn.store, n - 1);
    } else {
      var s' := RunBody(w, st.body, turn.store, n - 1).outcome.store;
      if LoopStops(w, st, turn.it, s', n - 1) {
        LoopRaises(w, st, turn.it, s', n - 1);
      } else {
        TurnRaises(w, st, turn.it, s', n - 1);
      }
    }
  }

  /* ---- Such a run erases everything ---- */

  // Nothing before the layer has left, and nothing of this layer has been sent.
  predicate AtStart(cur: Control, st: LayerState, s: Store) {
    cur.ret.Erased? && cur.cont.Erased? && cur.brk.Erased? && st == Active(Good(s), None, None, None, None)
  }

  lemma {:induction false} StopErases(w: World, b: seq<Stmt>, tail: Tail, exits: Exits, turn: bool,
                                      s: Store, cur: Control, st: LayerState, n: nat)
    requires BodyStops(w, b, s, n) && Orderly(b, exits, turn) && (HasCloser(b) ==> tail.NoTail?)
    requires AtStart(cur, st, s)
    ensures RunFrom(w, LowerStatements(b, tail), cur, st, n) == ERASED
    decreases n, b, 3
  {
    hide Shows, Masked, ExecOp, OrderlyStmt, ContinueResidue, Stalls, StmtStops, RunStmt;
    var layers := LowerStatements(b, tail);
    var rest := LowerStatements(b[1..], tail);
    var op := LowerStatement(b[0]);
    var first := RunStmt(w, b[0], s, n);
    if IsCompound(b[0]) {
      assert layers[0].ops == [op] && layers[1..] == rest;
      SingleOp(w, op, st, n);
      var k := CloseLayer(ExecOp(w, op, st, n));
      var cur' := Applied(cur, k);
      if first.Done? && first.outcome.Finish? {
        CompoundSim(w, b[0], s, st, n);
        FinishShows(first.outcome, cur, k, ContinueResidue(b[0]), Stalls(b[0]), false);
        FinishingIsOpen(w, b[0], s, n);
        StopErases(w, b[1..], tail, exits, turn, first.outcome.store, cur', Open(cur'.fin), n);
      } else {
        CompoundErases(w, b[0], s, st, n);
        ErasedIsApplied(cur);
        InertLayers(w, rest, cur', n);
      }
    } else {
      PrependRuns(w, op, rest, cur, st, n);
      if first.Done? && first.outcome.Finish? {
        SimpleSim(w, b[0], s, st, n);
        SimpleFinishes(w, b[0], s, n);
        StopErases(w, b[1..], tail, exits, turn, first.outcome.store, cur, ExecOp(w, op, st, n), n);
      } else {
        OnlyReturnStops(w, b[0], s, n);
        ReturnErases(w, b, tail, s, cur, st, n);
      }
    }
  }

  // A statement that once finishes does not close its list.
  lemma FinishingIsOpen(w: World, st: Stmt, s: Store, n: nat)
    requires IsCompound(st) && RunStmt(w, st, s, n).Done? && RunStmt(w, st, s, n).outcome.Finish?
    ensures !IsCloser(st)
  {
    StmtExitsSound(w, st, s, n);
  }

  lemma ErasedIsApplied(cur: Control)
    requires cur.ret.Erased? && cur.cont.Erased? && cur.brk.Erased?
    ensures Applied(cur, ERASED) == ERASED
  {
  }

  lemma OnlyReturnStops(w: World, st: Stmt, s: Store, n: nat)
    requires !IsCompound(st) && StmtStops(w, st, s, n)
    ensures st.Return?
  {
  }

  lemma ReturnErases(w: World, b: seq<Stmt>, tail: Tail, s: Store, cur: Control, st: LayerState, n: nat)
    requires b != [] && !IsCompound(b[0]) && StmtStops(w, b[0], s, n) && StraightLine(b[1..])
    requires tail.NoTail? && AtStart(cur, st, s)
    ensures RunFrom(w, LowerStatements(b[1..], tail), cur, ExecOp(w, LowerStatement(b[0]), st, n), n) == ERASED
  {
    EvalGood(b[0].result.value, s);
    StraightLineKeeps(w, b[1..], ExecOp(w, LowerStatement(b[0]), st, n), n);
    assert LowerStatements(b[1..], tail)[1..] == [];
  }

  lemma {:induction false} CompoundErases(w: World, stmt: Stmt, s: Store, st: LayerState, n: nat)
    requires IsCompound(stmt) && OrderlyStmt(stmt) && StmtStops(w, stmt, s, n)
    requires st == Active(Good(s), None, None, None, None)
    ensures CloseLayer(ExecOp(w, LowerStatement(stmt), st, n)) == ERASED
    decreases n, stmt, 2
  {
    hide RunFlow, RunAgent, BodyStops, LoopStops, LowerBody, StmtExits, BodyExits, OrderlyBody;
    match stmt
    case If(test, thenBody, elseBody) =>
      EvalGood(test, s);
      if Eval(test, s).Some? {
        FlowErases(w, if w.truthy(Eval(test, s).value) then thenBody else elseBody, false, s, n);
      }
    case For(_, iter, _, _) =>
      EvalGood(iter, s);
      if Eval(iter, s).Some? && w.iter(Eval(iter, s).value).Some? {
        LoopErases(w, stmt, w.iter(Eval(iter, s).value), s, n);
      } else {
        NoIterator(w, stmt, s, n);
      }
    case While(_, _, _) => LoopErases(w, stmt, None, s, n);
  }

  lemma NoIterator(w: World, stmt: Stmt, s: Store, n: nat)
    requires stmt.For?
    ensures RunAgent(w, LowerLoop(stmt), Live(Good(s)), Erased, n) == if n == 0 then WAITING else ERASED
  {
  }

  lemma {:induction false} FlowErases(w: World, b: seq<Stmt>, turn: bool, s: Store, n: nat)
    requires OrderlyBody(b, turn) && BodyStops(w, b, s, n)
    ensures RunFlow(w, LowerBody(b), Live(Good(s)), n) == ERASED
    decreases n, b, 4
  {
    var cur := Control(Erased, Erased, Erased, Live(Good(s)));
    StopErases(w, b, BodyTail(b), BodyExits(b), turn, s, cur, Open(cur.fin), n);
  }

  lemma {:induction false} LoopErases(w: World, stmt: Stmt, it: Option<Value>, s: Store, n: nat)
    requires IsLoop(stmt) && OrderlyStmt(stmt) && LoopStops(w, stmt, it, s, n)
    ensures RunAgent(w, LowerLoop(stmt), Live(Good(s)), AsChan(it), n) == ERASED
    decreases n, stmt, 1
  {
    match Advance(w, stmt, it, s)
    case Stuck => if stmt.While? { EvalGood(stmt.test, s); }
    case Exhausted(s') =>
      HeaderSim(w, stmt, it, s);
      FlowErases(w, stmt.orelse, false, s', n - 1);
  }

  /* ---- Such a turn ends the loop with nothing in its variables ---- */

  /* A raising turn splits an erased finish bundle all the same. */
  lemma {:induction false} TurnLeaks(w: World, stmt: Stmt, it: Option<Value>, s: Store, n: nat)
    requires IsLoop(stmt) && OrderlyStmt(stmt) && StopsAfterTurn(w, stmt, it, s, n)
    ensures RunAgent(w, LowerLoop(stmt), Live(Good(s)), AsChan(it), n)
         == Control(Erased, Erased, Erased, if Fallthrough in StmtExits(stmt) then Live(LEAKED) else Erased)
    decreases n
  {
    hide RunBody, RunFlow, BodyStops, LoopStops, OrderlyBody, StmtExits, LowerBody, Shows;
    var agent := LowerLoop(stmt);
    var turn := Advance(w, stmt, it, s);
    HeaderSim(w, stmt, it, s);
    var c := RunFlow(w, agent.body, Live(Good(turn.store)), n - 1);
    if BodyStops(w, stmt.body, turn.store, n - 1) {
      FlowErases(w, stmt.body, true, turn.store, n - 1);
    } else {
      var first := RunBody(w, stmt.body, turn.store, n - 1).outcome;
      FlowSim(w, stmt.body, true, turn.store, n - 1);
      RouteSim(first, c, BodyResidue(stmt.body), TurnStalls(stmt.body));
      assert Route(c) == Routed(Erased, Erased, Live(Good(first.store)));
      if LoopStops(w, stmt, turn.it, first.store, n - 1) {
        LoopErases(w, stmt, turn.it, first.store, n - 1);
      } else {
        TurnLeaks(w, stmt, turn.it, first.store, n - 1);
      }
    }
  }

  predicate StopsLate(w: World, loop: Stmt, s: Store, n: nat)
    requires IsLoop(loop)
  {
    if loop.While? then StopsAfterTurn(w, loop, None, s, n)
    else
      && Eval(loop.iter, s).Some? && w.iter(Eval(loop.iter, s).value).Some?
      && StopsAfterTurn(w, loop, w.iter(Eval(loop.iter, s).value), s, n)
  }

  lemma LateStop(w: World, loop: Stmt, s: Store, n: nat)
    requires IsLoop(loop) && OrderlyStmt(loop) && StopsLate(w, loop, s, n)
    ensures RunStmt(w, loop, s, n) == Raised
    ensures CloseLayer(ExecOp(w, LowerStatement(loop), Open(Live(Good(s))), n))
         == Control(Erased, Erased, Erased, if Fallthrough in StmtExits(loop) then Live(LEAKED) else Erased)
  {
    hide RunAgent, StopsAfterTurn, StmtExits;
    var it := if loop.While? then None else w.iter(Eval(loop.iter, s).value);
    if loop.For? {
      EvalGood(loop.iter, s);
    }
    TurnLeaks(w, loop, it, s, n);
    TurnRaises(w, loop, it, s, n);
  }

  /* ---- Main results ---- */

  /** A call that raises in a test, an iterable or a returned expression, outside of
      the turns of every loop, leaves an erasure on all its channels. */
  lemma RaiseErases(w: World, b: seq<Stmt>, s: Store, n: nat)
    requires OrderlyFunction(b) && BodyStops(w, b, s, n)
    ensures Call(w, b, s, n) == Raised && RunFlow(w, LowerFunction(b), Live(Good(s)), n) == ERASED
  {
    var cur := Control(Erased, Erased, Erased, Live(Good(s)));
    BodyRaises(w, b, s, n);
    StopErases(w, b, TailOf(b, FunctionExits(b)), FunctionExits(b), false, s, cur, Open(cur.fin), n);
  }

  // The statements before a loop finish, and the loop raises in or after a turn.
  predicate RaisesIn(w: World, pre: seq<Stmt>, loop: Stmt, s: Store, n: nat) {
    && AllOrderly(pre) && IsLoop(loop) && OrderlyStmt(loop)
    && RunBody(w, pre, s, n).Done? && RunBody(w, pre, s, n).outcome.Finish?
    && StopsLate(w, loop, RunBody(w, pre, s, n).outcome.store, n)
  }

  /** The net does not stop where a turn of a loop raises: what follows the loop runs
      on, with no variable bound, unless the loop cannot fall through. */
  lemma RaiseRunsOn(w: World, pre: seq<Stmt>, loop: Stmt, rest: seq<Stmt>, tail: Tail, exits: Exits, s: Store, n: nat)
    requires RaisesIn(w, pre, loop, s, n)
    ensures var b := pre + ([loop] + rest);
            && RunBody(w, b, s, n) == Raised
            && RunFlow(w, BodyFlow(LowerStatements(b, tail), exits), Live(Good(s)), n)
               == if Fallthrough in StmtExits(loop)
                  then RunFlow(w, BodyFlow(LowerStatements(rest, tail), exits), Live(LEAKED), n)
                  else ERASED
  {
    hide ExecOp, CloseLayer, RunStmt, OrderlyStmt, StmtExits, StopsLate;
    var cur := Control(Erased, Erased, Erased, Live(Good(s)));
    var s0 := RunBody(w, pre, s, n).outcome.store;
    var b := [loop] + rest;
    assert b[0] == loop && b[1..] == rest;
    LateStop(w, loop, s0, n);
    RunPrefix(w, pre, b, s, n);
    var cur' := PrefixSim(w, pre, b, tail, s, cur, Open(cur.fin), n);
    SingleOp(w, LowerStatement(loop), Open(Live(Good(s0))), n);
    assert LowerStatements(b, tail) == [Layer([LowerStatement(loop)])] + LowerStatements(rest, tail);
    if Fallthrough !in StmtExits(loop) {
      InertLayers(w, LowerStatements(rest, tail), ERASED, n);
    }
  }

  /** So in a function a loop that raises and then returns an expression loses the
      exception: the call is answered if and only if the expression mentions no
      variable, and does not raise itself. */
  lemma RaiseLostExactly(w: World, pre: seq<Stmt>, loop: Stmt, e: Expr, post: seq<Stmt>, s: Store, n: nat)
    requires RaisesIn(w, pre, loop, s, n) && Fallthrough in StmtExits(loop) && StraightLine(post)
    ensures var b := pre + ([loop] + ([Return(Some(e))] + post));
            && Call(w, b, s, n) == Raised
            && RunFlow(w, LowerFunction(b), Live(Good(s)), n).ret
               == if Variableless(e) then AsChan(Eval(e, s)) else Erased
  {
    var jump := Return(Some(e));
    var rest := [jump] + post;
    var b := pre + ([loop] + rest);
    assert rest[0] == jump && rest[1..] == post;
    ReturnsAfter(w, pre, loop, jump, post, s, n);
    RaiseRunsOn(w, pre, loop, rest, NoTail, FunctionExits(b), s, n);
    ReturnsOnLeaked(w, e, post, FunctionExits(b), s, n);
  }

  lemma ReturnsOnLeaked(w: World, e: Expr, post: seq<Stmt>, exits: Exits, s: Store, n: nat)
    requires StraightLine(post) && Returns in exits
    ensures RunFlow(w, BodyFlow(LowerStatements([Return(Some(e))] + post, NoTail), exits), Live(LEAKED), n).ret
         == if Variableless(e) then AsChan(Eval(e, s)) else Erased
  {
    var op, rest := SendReturn(Some(e)), LowerStatements(post, NoTail);
    var b := [Return(Some(e))] + post;
    assert b[1..] == post;
    var cur := Control(Erased, Erased, Erased, Live(LEAKED));
    var st := Open(cur.fin);
    PrependRuns(w, op, rest, cur, st, n);
    StraightLineKeeps(w, post, ExecOp(w, op, st, n), n);
    EvalLeaked(e, s);
  }

  lemma ReturnsAfter(w: World, pre: seq<Stmt>, loop: Stmt, jump: Stmt, post: seq<Stmt>, s: Store, n: nat)
    requires IsLoop(loop) && Fallthrough in StmtExits(loop) && jump.Return?
    requires RunBody(w, pre, s, n).Done? && RunBody(w, pre, s, n).outcome.Finish?
    ensures var b := pre + ([loop] + ([jump] + post)); HasCloser(b) && Returns in FunctionExits(b)
  {
    var end := [jump] + post;
    BodyExitsSound(w, pre, s, n);
    assert end[0] == jump && ([loop] + end)[0] == loop && ([loop] + end)[1..] == end;
    ExitsSplit(pre, [loop] + end);
    JumpExits(jump, end);
  }

  /* A whole function: a loop whose turn raises at its first test, and a constant. */
  const RAISING_TEST: Stmt := If(Dynamic(_ => None, []), [], [])

  function Raises(t: Value, r: Value): seq<Stmt> {
    [While(Const(t), [RAISING_TEST], []), Return(Some(Const(r)))]
  }

  /** A validated function that Python leaves by an exception and the net answers. */
  lemma RaiseIsLost(w: World, t: Value, r: Value, s: Store, n: nat)
    requires w.truthy(t) && n > 1
    ensures WellClosed(Raises(t, r)) && OrderlyFunction(Raises(t, r))
    ensures Call(w, Raises(t, r), s, n) == Raised
    ensures RunFlow(w, LowerFunction(Raises(t, r)), Live(Good(s)), n).ret == Live(r)
  {
    var loop, jump := While(Const(t), [RAISING_TEST], []), Return(Some(Const(r)));
    assert Raises(t, r) == [] + ([loop] + ([jump] + []));
    RaisesExits(loop, jump);
    assert BodyStops(w, loop.body, s, n - 1);
    assert RunBody(w, [], s, n) == Done(Finish(s));
    RaiseLostExactly(w, [], loop, Const(r), [], s, n);
  }

  lemma RaisesExits(loop: Stmt, jump: Stmt)
    requires loop.While? && loop.body == [RAISING_TEST] && loop.orelse == [] && jump.Return?
    ensures StmtExits(loop) == {Fallthrough} && OrderlyStmt(loop)
    ensures WellClosed([loop, jump]) && OrderlyFunction([loop, jump])
  {
    var body := [RAISING_TEST];
    assert body[1..] == [] && [loop, jump][1..] == [jump] && [jump][1..] == [];
    assert BodyExits([]) == {Fallthrough} && StmtExits(RAISING_TEST) == {Fallthrough};
    assert BodyExits(body) == {Fallthrough} by {
      assert CollectedExits(body) == StmtExits(RAISING_TEST) + CollectedExits([]);
    }
    assert OrderlyBody([], false) && !BodyStalls([]) && BodyResidue([]).Clean?;
    assert OrderlyStmt(RAISING_TEST) && !Stalls(RAISING_TEST) && ContinueResidue(RAISING_TEST).Clean?;
    assert OrderlyBody(body, true) && !ListStalls(body);
    assert LeakOf(loop.orelse) == Clean;
    assert ContinueResidue(loop) == ElseResidue(loop, loop.orelse) == Clean && !Stalls(loop);
    assert Onward(Clean, [jump]) == Clean;
    assert Orderly([jump], FunctionExits([loop, jump]), false);
  }
}
