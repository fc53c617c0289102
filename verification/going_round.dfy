/** How often a loop goes round. Loop.true_case does not mask the finish of a turn by
    its return, so a turn that returns out of a leaking loop is followed by another
    one, on the leaked bundle. */
module GoingRound {
  import opened Options
  import opened Ir
  import opened Python
  import opened Channels
  import opened Flow
  import opened Lowering
  import opened Orderliness
  import opened LoweringCorrect
  import opened LoweringLimits
  import opened LeakyRuns
  import opened Exclusivity

  /** A turn that returns hands its value out, and goes round again exactly when it
      leaks. */
  lemma ReturnGoesRoundExactly(w: World, b: seq<Stmt>, s: Store, n: nat)
    requires OrderlyBody(b, true) && Validated(b) && PlainBody(w, b, s, n)
    requires RunBody(w, b, s, n).Done? && RunBody(w, b, s, n).outcome.Ret?
    ensures var r := Route(RunFlow(w, LowerBody(b), Live(Good(s)), n));
            && r.ret == Live(RunBody(w, b, s, n).outcome.value) && !r.brk.Live?
            && (r.again.Live? <==> LeaksBody(w, b, s, n))
  {
    FlowSim(w, b, true, s, n);
    FlowLeaves(w, b, true, s, n);
  }

  /** In a turn: statements that finish, a loop left by return, and straight code.
      The enclosing loop goes round again exactly when that loop made a turn (or its
      else clause leaks) and its finish is not cut. */
  lemma LoopGoesRoundExactly(w: World, pre: seq<Stmt>, loop: Stmt, mid: seq<Stmt>, s: Store, n: nat)
    requires EscapesAt(w, pre, loop, s, n) && StraightLine(mid)
    requires PlainStmt(w, loop, RunBody(w, pre, s, n).outcome.store, n)
    requires RunStmt(w, loop, RunBody(w, pre, s, n).outcome.store, n).outcome.Ret?
    requires OrderlyBody(pre + ([loop] + mid), true) && Validated(pre + ([loop] + mid))
    ensures var b, s' := pre + ([loop] + mid), RunBody(w, pre, s, n).outcome.store;
            && n > 0 && RunBody(w, b, s, n) == RunStmt(w, loop, s', n)
            && (Route(RunFlow(w, LowerBody(b), Live(Good(s)), n)).again.Live? <==> LoopLeaks(w, loop, s', n))
  {
    var b, s' := [loop] + mid, RunBody(w, pre, s, n).outcome.store;
    assert b[0] == loop && b[1..] == mid;
    RunPrefix(w, pre, b, s, n);
    LeaksPrefix(w, pre, b, s, n);
    LoopStmtLeaks(w, loop, s', n);
    ReturnGoesRoundExactly(w, pre + b, s, n);
  }

  /* ---- Turns, in the source and in the net ---- */

  function SourceTurns(w: World, loop: Stmt, it: Option<Value>, s: Store, n: nat): nat
    requires IsLoop(loop)
    decreases n
  {
    if n == 0 || !Advance(w, loop, it, s).Enter? then 0
    else
      var Enter(s', it') := Advance(w, loop, it, s);
      match RunBody(w, loop.body, s', n - 1)
      case Done(Finish(s'')) => 1 + SourceTurns(w, loop, it', s'', n - 1)
      case Done(Cont(s'')) => 1 + SourceTurns(w, loop, it', s'', n - 1)
      case _ => 1
  }

  function NetTurns(w: World, agent: LoopAgent, vars: Chan<Env>, it: Chan<Value>, n: nat): nat
    decreases n
  {
    if n == 0 || !vars.Live? then 0
    else
      var h := TurnHeader(w, agent.step, vars.v, it);
      if h.test != Live(true) then 0
      else 1 + NetTurns(w, agent, Route(RunFlow(w, agent.body, Live(h.env), n - 1)).again, h.it, n - 1)
  }

  // The turn that ends the loop, if one does: its store, its fuel, and the iterator.
  datatype Last = NoTurn | LastTurn(store: Store, it: Option<Value>, fuel: nat)

  function LastOf(w: World, loop: Stmt, it: Option<Value>, s: Store, n: nat): Last
    requires IsLoop(loop)
    decreases n
  {
    if n == 0 || !Advance(w, loop, it, s).Enter? then NoTurn
    else
      var Enter(s', it') := Advance(w, loop, it, s);
      match RunBody(w, loop.body, s', n - 1)
      case Done(Finish(s'')) => LastOf(w, loop, it', s'', n - 1)
      case Done(Cont(s'')) => LastOf(w, loop, it', s'', n - 1)
      case _ => LastTurn(s', it', n - 1)
  }

  // The loop is left by a return, and the turn leaks.
  predicate Overruns(w: World, loop: Stmt, it: Option<Value>, s: Store, n: nat)
    requires IsLoop(loop)
  {
    var last := LastOf(w, loop, it, s, n);
    last.LastTurn? && RunBody(w, loop.body, last.store, last.fuel).Done?
    && RunBody(w, loop.body, last.store, last.fuel).outcome.Ret? && LeaksBody(w, loop.body, last.store, last.fuel)
  }

  predicate PlainLast(w: World, loop: Stmt, it: Option<Value>, s: Store, n: nat)
    requires IsLoop(loop)
  {
    var last := LastOf(w, loop, it, s, n);
    last.LastTurn? ==> PlainBody(w, loop.body, last.store, last.fuel)
  }

  // What such a turn goes round with.
  function Leftover(w: World, loop: Stmt, it: Option<Value>, s: Store, n: nat): Chan<Env>
    requires IsLoop(loop)
  {
    match LastOf(w, loop, it, s, n)
    case NoTurn => Erased
    case LastTurn(s', _, m) => Route(RunFlow(w, LowerBody(loop.body), Live(Good(s')), m)).again
  }

  function LastIterator(w: World, loop: Stmt, it: Option<Value>, s: Store, n: nat): Chan<Value>
    requires IsLoop(loop)
  {
    match LastOf(w, loop, it, s, n)
    case NoTurn => Erased
    case LastTurn(_, it', _) => AsChan(it')
  }

  function LastFuel(w: World, loop: Stmt, it: Option<Value>, s: Store, n: nat): nat
    requires IsLoop(loop)
  {
    match LastOf(w, loop, it, s, n)
    case NoTurn => 0
    case LastTurn(_, _, m) => m
  }

  lemma LoopUnfolds(w: World, loop: Stmt, it: Option<Value>, s: Store, n: nat)
    requires IsLoop(loop) && RunLoop(w, loop, it, s, n).Done?
    ensures n > 0 && !Advance(w, loop, it, s).Stuck?
    ensures var t := Advance(w, loop, it, s);
            t.Enter? ==>
              && RunBody(w, loop.body, t.store, n - 1).Done?
              && var o := RunBody(w, loop.body, t.store, n - 1).outcome;
                 o.Finish? || o.Cont? ==> RunLoop(w, loop, t.it, o.store, n - 1).Done?
  {
  }

  // The turns of the net that start from what the last one of the source leaves.
  function MoreTurns(w: World, loop: Stmt, it: Option<Value>, s: Store, n: nat): nat
    requires IsLoop(loop)
  {
    NetTurns(w, LowerLoop(loop), Leftover(w, loop, it, s, n), LastIterator(w, loop, it, s, n),
             LastFuel(w, loop, it, s, n))
  }

  /** The net takes the turns of the source, and after a returning turn that leaks
      all those that start from its leftover. */
  lemma {:induction false} TurnsExactly(w: World, loop: Stmt, it: Option<Value>, s: Store, n: nat)
    requires IsLoop(loop) && OrderlyStmt(loop) && ValidatedStmt(loop) && RunLoop(w, loop, it, s, n).Done?
    requires PlainLast(w, loop, it, s, n)
    ensures NetTurns(w, LowerLoop(loop), Live(Good(s)), AsChan(it), n)
         == SourceTurns(w, loop, it, s, n) + MoreTurns(w, loop, it, s, n)
    ensures Leftover(w, loop, it, s, n).Live? <==> Overruns(w, loop, it, s, n)
    ensures !Overruns(w, loop, it, s, n) ==> MoreTurns(w, loop, it, s, n) == 0
    decreases n
  {
    hide RunFlow, RunBody, LowerBody, BodyExits, StmtExits, TurnHeader, Route, OrderlyBody, LeaksBody, PlainBody,
         Validated, Shows, TurnStalls, BodyResidue, RunLoop;
    assert OrderlyLoop(loop, loop.body, loop.orelse);
    LoopUnfolds(w, loop, it, s, n);
    HeaderSim(w, loop, it, s);
    match Advance(w, loop, it, s)
    case Exhausted(_) =>
    case Enter(s', it') =>
      FlowSim(w, loop.body, true, s', n - 1);
      var first := RunBody(w, loop.body, s', n - 1).outcome;
      var c := RunFlow(w, LowerBody(loop.body), Live(Good(s')), n - 1);
      RouteSim(first, c, BodyResidue(loop.body), TurnStalls(loop.body));
      if first.Finish? || first.Cont? {
        assert LastOf(w, loop, it, s, n) == LastOf(w, loop, it', first.store, n - 1);
        TurnsExactly(w, loop, it', first.store, n - 1);
        TurnCounts(w, loop, it, s, n);
      } else {
        assert LastOf(w, loop, it, s, n) == LastTurn(s', it', n - 1);
        TurnCounts(w, loop, it, s, n);
        if first.Ret? {
          ReturnGoesRoundExactly(w, loop.body, s', n - 1);
        }
      }
  }

  // One turn more, in the source and in the net.
  lemma TurnCounts(w: World, loop: Stmt, it: Option<Value>, s: Store, n: nat)
    requires IsLoop(loop) && RunLoop(w, loop, it, s, n).Done? && n > 0 && Advance(w, loop, it, s).Enter?
    ensures var Enter(s', it') := Advance(w, loop, it, s);
            var again := Route(RunFlow(w, LowerBody(loop.body), Live(Good(s')), n - 1)).again;
            && RunBody(w, loop.body, s', n - 1).Done?
            && NetTurns(w, LowerLoop(loop), Live(Good(s)), AsChan(it), n)
               == 1 + NetTurns(w, LowerLoop(loop), again, AsChan(it'), n - 1)
            && var o := RunBody(w, loop.body, s', n - 1).outcome;
               SourceTurns(w, loop, it, s, n)
               == 1 + if o.Finish? || o.Cont? then SourceTurns(w, loop, it', o.store, n - 1) else 0
  {
    hide RunFlow, RunBody, LowerBody, TurnHeader, Route;
    HeaderSim(w, loop, it, s);
  }

  // A leaking turn has made a turn of its own, so there is fuel for another.
  lemma {:induction false} LeakTakesFuel(w: World, b: seq<Stmt>, s: Store, n: nat)
    requires LeaksBody(w, b, s, n)
    ensures n > 0
    decreases b, 1
  {
    if RunStmt(w, b[0], s, n).outcome.Finish? {
      LeakTakesFuel(w, b[1..], RunStmt(w, b[0], s, n).outcome.store, n);
    } else if b[0].If? {
      LeakTakesFuel(w, if w.truthy(Eval(b[0].test, s).value) then b[0].thenBody else b[0].elseBody, s, n);
    } else {
      assert LeaksStmt(w, b[0], s, n) && IsLoop(b[0]);
      var it := if b[0].While? then None else w.iter(Eval(b[0].iter, s).value);
      assert LeaksLoop(w, b[0], it, s, n);
    }
  }

  /** So a for loop consumes more of its iterator than the source does exactly when
      it is left by a leaking return with items to come. */
  lemma ForOverrunsExactly(w: World, loop: Stmt, it: Value, s: Store, n: nat)
    requires loop.For? && OrderlyStmt(loop) && ValidatedStmt(loop) && RunLoop(w, loop, Some(it), s, n).Done?
    requires PlainLast(w, loop, Some(it), s, n)
    ensures NetTurns(w, LowerLoop(loop), Live(Good(s)), Live(it), n) > SourceTurns(w, loop, Some(it), s, n)
            <==> && Overruns(w, loop, Some(it), s, n)
                 && var left := LastIterator(w, loop, Some(it), s, n); left.Live? && w.next(left.v).Some?
  {
    hide RunFlow, LowerBody, LeaksBody, PlainBody, Validated;
    TurnsExactly(w, loop, Some(it), s, n);
    LastIsSome(w, loop, it, s, n);
    if Overruns(w, loop, Some(it), s, n) {
      var last := LastOf(w, loop, Some(it), s, n);
      LeakTakesFuel(w, loop.body, last.store, last.fuel);
    }
  }

  lemma {:induction false} LastIsSome(w: World, loop: Stmt, it: Value, s: Store, n: nat)
    requires loop.For?
    ensures var last := LastOf(w, loop, Some(it), s, n); last.LastTurn? ==> last.it.Some?
    decreases n
  {
    match Advance(w, loop, Some(it), s)
    case Enter(s', it') =>
      if n > 0 && RunBody(w, loop.body, s', n - 1).Done? {
        var first := RunBody(w, loop.body, s', n - 1).outcome;
        if first.Finish? || first.Cont? {
          LastIsSome(w, loop, it'.value, first.store, n - 1);
        }
      }
    case _ =>
  }

  /* ---- A loop that never stops ---- */

  /* For any y, iter and r, and any truthy t:
       for y in iter:
           while t: return r                                                  */
  function Inner(t: Value, r: Value): Stmt {
    While(Const(t), [Return(Some(Const(r)))], [])
  }

  function Outer(y: Name, iter: Expr, t: Value, r: Value): Stmt {
    For(y, iter, [Inner(t, r)], [])
  }

  lemma InnerShape(t: Value, r: Value)
    ensures StmtExits(Inner(t, r)) == {Fallthrough, Returns} && BodyExits([Inner(t, r)]) == {Fallthrough, Returns}
    ensures LowerBody([Inner(t, r)])
         == BodyFlow([Layer([LowerStatement(Inner(t, r))]), Layer([SendFinish])], {Fallthrough, Returns})
    ensures LowerBody([Return(Some(Const(r)))]) == BodyFlow([Layer([SendReturn(Some(Const(r)))])], {Returns})
  {
    var inner, ret := Inner(t, r), Return(Some(Const(r)));
    assert [ret][1..] == [] && [inner][1..] == [] && CollectedExits([ret]) == {Returns};
    assert BodyExits([]) == {Fallthrough} && StmtExits(inner) == {Fallthrough, Returns};
    assert CollectedExits([inner]) == StmtExits(inner) + CollectedExits([]);
    LowerOne(ret);
    assert HasCloser([ret]) && !HasCloser([inner]);
    assert LowerStatements([], FinishTail) == [Layer([SendFinish])];
  }

  // The inner loop returns and leaks on any registers, leaked ones too.
  lemma InnerLeaks(w: World, t: Value, r: Value, env: Env, n: nat)
    requires w.truthy(t) && n >= 1
    ensures CloseLayer(ExecOp(w, LowerStatement(Inner(t, r)), Open(Live(env)), n))
         == Control(Live(r), Erased, Erased, Live(LEAKED))
  {
    InnerShape(t, r);
    var agent := LowerLoop(Inner(t, r));
    var cur := Control(Erased, Erased, Erased, Live(env));
    var ret := SendReturn(Some(Const(r)));
    var layers := agent.body.layers;
    SingleOp(w, ret, Open(Live(env)), n - 1);
    assert layers[1..] == [] && layers[0].ops == [ret];
    var k := Control(Live(r), Erased, Erased, Erased);
    assert CloseLayer(ExecOp(w, ret, Open(Live(env)), n - 1)) == k && Applied(cur, k) == k;
    assert RunLayers(w, layers, cur, n - 1) == RunLayers(w, layers[1..], k, n - 1) == k;
    assert RunFlow(w, agent.body, Live(env), n - 1) == Control(Live(r), Erased, Erased, Erased);
    assert TurnHeader(w, agent.step, env, Erased) == Header(Live(true), env, Erased);
    assert RunAgent(w, agent, Erased, Erased, n - 1) == ERASED;
    assert RunAgent(w, agent, Live(env), Erased, n)
        == Control(Live(r), Erased, Erased, Live(LEAKED));
  }

  lemma TurnLeaks(w: World, t: Value, r: Value, env: Env, n: nat)
    requires w.truthy(t) && n >= 1
    ensures RunFlow(w, LowerBody([Inner(t, r)]), Live(env), n) == Control(Live(r), Erased, Erased, Live(LEAKED))
  {
    hide ExecOp, LowerStatement;
    InnerShape(t, r);
    InnerLeaks(w, t, r, env, n);
    var cur := Control(Erased, Erased, Erased, Live(env));
    var op, layers := LowerStatement(Inner(t, r)), LowerBody([Inner(t, r)]).layers;
    SingleOp(w, op, Open(Live(env)), n);
    SingleOp(w, SendFinish, Open(Live(LEAKED)), n);
    FinishSends(w, LEAKED, n);
    var k := Control(Live(r), Erased, Erased, Live(LEAKED));
    assert Applied(cur, k) == k;
    assert layers[1..] == [Layer([SendFinish])] && layers[1..][1..] == [];
    assert RunLayers(w, layers, cur, n) == RunLayers(w, layers[1..], k, n);
    assert RunLayers(w, layers[1..], k, n) == k;
  }

  lemma FinishSends(w: World, env: Env, n: nat)
    ensures CloseLayer(ExecOp(w, SendFinish, Open(Live(env)), n)) == Control(Erased, Erased, Erased, Live(env))
  {
  }

  lemma {:induction false} NeverStops(w: World, y: Name, iter: Expr, t: Value, r: Value, env: Env, it: Value, n: nat)
    requires w.truthy(t) && forall i :: w.next(i).Some?
    ensures NetTurns(w, LowerLoop(Outer(y, iter, t, r)), Live(env), Live(it), n) == n
    decreases n
  {
    hide RunFlow, LowerBody;
    if n > 0 {
      var agent, step := LowerLoop(Outer(y, iter, t, r)), w.next(it).value;
      var env' := env.Set(y, Live(step.0));
      assert TurnHeader(w, agent.step, env, Live(it)) == Header(Live(true), env', Live(step.1));
      var c := RunFlow(w, agent.body, Live(env'), n - 1);
      if n > 1 {
        TurnLeaks(w, t, r, env', n - 1);
        assert c == Control(Live(r), Erased, Erased, Live(LEAKED)) && Route(c).again == Live(LEAKED);
        NeverStops(w, y, iter, t, r, LEAKED, step.1, n - 1);
      }
    }
  }

  /** Python returns r in the first turn, and so does the net; but over an endless
      iterator the net goes on taking turns for as long as it is run. */
  lemma ReturnNeverStops(w: World, y: Name, iter: Expr, t: Value, r: Value, it: Value, s: Store, n: nat)
    requires w.truthy(t) && (forall i :: w.next(i).Some?) && n >= 2
    ensures var loop := Outer(y, iter, t, r);
            && Validated([loop]) && OrderlyStmt(loop)
            && RunLoop(w, loop, Some(it), s, n) == Done(Ret(r)) && SourceTurns(w, loop, Some(it), s, n) == 1
            && RunAgent(w, LowerLoop(loop), Live(Good(s)), Live(it), n).ret == Live(r)
            && NetTurns(w, LowerLoop(loop), Live(Good(s)), Live(it), n) == n
  {
    var loop := Outer(y, iter, t, r);
    NeverStops(w, y, iter, t, r, Good(s), it, n);
    OuterIsFine(y, iter, t, r);
    var s' := Advance(w, loop, Some(it), s).store;
    InnerReturns(w, t, r, s', n - 1);
    LoopSim(w, loop, Some(it), s, n);
  }

  lemma InnerReturns(w: World, t: Value, r: Value, s: Store, n: nat)
    requires w.truthy(t) && n >= 1
    ensures RunBody(w, [Inner(t, r)], s, n) == Done(Ret(r))
  {
    var inner, ret := Inner(t, r), Return(Some(Const(r)));
    assert RunStmt(w, ret, s, n - 1) == Done(Ret(r)) && RunBody(w, [ret], s, n - 1) == Done(Ret(r));
    assert RunLoop(w, inner, None, s, n) == Done(Ret(r)) && RunStmt(w, inner, s, n) == Done(Ret(r));
  }

  lemma OneStatement(st: Stmt, turn: bool)
    requires OrderlyStmt(st) && IsCompound(st) && !IsCloser(st) && ContinueResidue(st).Clean? && !Stalls(st)
    ensures OrderlyBody([st], turn) && !ListStalls([st])
  {
    assert [st][1..] == [] && Onward(Clean, []).Clean?;
  }

  lemma InnerIsOrderly(t: Value, r: Value)
    ensures OrderlyStmt(Inner(t, r)) && ContinueResidue(Inner(t, r)).Clean? && !Stalls(Inner(t, r))
  {
    var inner, ret := Inner(t, r), Return(Some(Const(r)));
    assert [ret][1..] == [] && inner.orelse == [] && inner.body == [ret];
    assert BodyExits([]) == {Fallthrough} && !ListStalls([]) && !BodyStalls([]);
    assert OrderlyBody([], false) && OrderlyBody([ret], true) && !ListStalls([ret]) && !TurnStalls([ret]);
    assert OrderlyLoop(inner, [ret], []);
    assert LeakOf([]) == Clean && ContinueResidue(inner) == ElseResidue(inner, []);
  }

  lemma OuterIsFine(y: Name, iter: Expr, t: Value, r: Value)
    ensures Validated([Outer(y, iter, t, r)]) && OrderlyStmt(Outer(y, iter, t, r))
  {
    var outer, inner, ret := Outer(y, iter, t, r), Inner(t, r), Return(Some(Const(r)));
    InnerShape(t, r);
    InnerIsOrderly(t, r);
    OneStatement(inner, true);
    assert BodyExits([]) == {Fallthrough} && OrderlyBody([], false) && !TurnStalls([inner]);
    assert OrderlyLoop(outer, [inner], []);
    OneValidated(ret);
    assert Validated([]);
    OneValidated(inner);
    OneValidated(outer);
  }

  lemma OneValidated(st: Stmt)
    requires ValidatedStmt(st)
    ensures Validated([st])
  {
    assert [st][1..] == [] && WellClosed([]) && AllValidPostExit([]) && AllValidated([]);
  }
}
