/** A conditional or loop after a break or a continue in the same list: its header
    reads registers that have been given away, so it never fires, and neither does
    any layer behind it. What that spoils is decided by the exits of the body. */
module PostJump {
  import opened Options
  import opened Ir
  import opened Python
  import opened Channels
  import opened Flow
  import opened Lowering
  import opened Orderliness
  import opened LoweringCorrect
  import opened LoweringLimits

  function Head(st: Stmt): Expr
    requires IsCompound(st)
  {
    match st
    case If(test, _, _) => test
    case For(_, iter, _, _) => iter
    case While(test, _, _) => test
  }

  // A jump, straight code, a statement whose header waits, and anything.
  function After(jump: Stmt, mid: seq<Stmt>, cond: Stmt, post: seq<Stmt>): seq<Stmt> {
    [jump] + (mid + ([cond] + post))
  }

  // The header mentions a register that the jump has given away.
  predicate Waits(jump: Stmt, mid: seq<Stmt>, cond: Stmt) {
    && (jump.Break? || jump.Continue?) && StraightLine(mid)
    && IsCompound(cond) && ValidPostExit(cond) && EvalChan(Head(cond), Moved(mid, DANGLING)).Pending?
  }

  predicate Finishes(w: World, pre: seq<Stmt>, s: Store, n: nat) {
    AllOrderly(pre) && RunBody(w, pre, s, n).Done? && RunBody(w, pre, s, n).outcome.Finish?
  }

  /* ---- Waiting ---- */

  lemma {:induction false} WaitingLayers(w: World, layers: seq<Layer>, cur: Control, n: nat)
    requires cur.fin.Pending? && layers != []
    ensures RunLayers(w, layers, cur, n)
         == Control(SerialOr(cur.ret, Pending), SerialOr(cur.cont, Pending), SerialOr(cur.brk, Pending), Pending)
    decreases |layers|
  {
    InertOps(w, layers[0].ops, Waiting, n);
    var next := Applied(cur, WAITING);
    if layers[1..] != [] {
      WaitingLayers(w, layers[1..], next, n);
    }
  }

  // The header of a loop or a conditional that waits keeps its outputs waiting.
  lemma HeadWaits(w: World, cond: Stmt, st: LayerState, n: nat)
    requires IsCompound(cond) && ValidPostExit(cond)
    requires st.Active? && EvalChan(Head(cond), st.env).Pending?
    ensures ExecOp(w, LowerStatement(cond), st, n) == Forward(st, Control(Erased, Erased, Erased, Pending))
  {
    hide RunFlow, LowerBody, EvalChan;
    assert StmtExits(cond) == {Fallthrough};
    if cond.For? {
      assert RunAgent(w, LowerLoop(cond), Live(st.env), Pending, n) == WAITING
          || RunAgent(w, LowerLoop(cond), Live(st.env), Pending, n) == Shortcut(WAITING, {Fallthrough});
    } else if cond.While? {
      assert RunAgent(w, LowerLoop(cond), Live(st.env), Erased, n) == WAITING
          || RunAgent(w, LowerLoop(cond), Live(st.env), Erased, n) == Shortcut(WAITING, {Fallthrough});
    }
  }

  // The channels before the exits of the body cut them.
  function Waited(jump: Stmt, env: Env): Control {
    if jump.Break? then Control(Pending, Pending, Live(env), Pending) else Control(Pending, Live(env), Pending, Pending)
  }

  lemma JumpThenWait(w: World, jump: Stmt, mid: seq<Stmt>, cond: Stmt, post: seq<Stmt>,
                     cur: Control, env: Env, n: nat)
    requires Waits(jump, mid, cond) && cur.ret.Erased? && cur.cont.Erased? && cur.brk.Erased?
    ensures RunFrom(w, LowerStatements(After(jump, mid, cond, post), NoTail), cur,
                    Active(env, None, None, None, None), n)
            == Waited(jump, env)
  {
    hide EvalChan, Moved, RunFrom, LowerStatements;
    var st := Active(env, None, None, None, None);
    var end := [cond] + post;
    var b := After(jump, mid, cond, post);
    assert b[0] == jump && b[1..] == mid + end;
    JumpFirst(w, b, cur, st, n);
    var st1 := ExecOp(w, LowerStatement(jump), st, n);
    StraightPrefix(w, mid, end, NoTail, cur, st1, n);
    WaitsFrom(w, cond, post, cur, st1.(env := Moved(mid, DANGLING)), env, jump.Break?, n);
  }

  lemma JumpFirst(w: World, b: seq<Stmt>, cur: Control, st: LayerState, n: nat)
    requires b != [] && IsJump(b[0])
    ensures RunFrom(w, LowerStatements(b, NoTail), cur, st, n)
         == RunFrom(w, LowerStatements(b[1..], NoTail), cur, ExecOp(w, LowerStatement(b[0]), st, n), n)
  {
    PrependRuns(w, LowerStatement(b[0]), LowerStatements(b[1..], NoTail), cur, st, n);
  }

  // In the layer of a jump that has been sent.
  lemma WaitsFrom(w: World, cond: Stmt, post: seq<Stmt>, cur: Control, st: LayerState, env: Env, broke: bool, n: nat)
    requires IsCompound(cond) && ValidPostExit(cond) && st.Active? && EvalChan(Head(cond), st.env).Pending?
    requires cur.ret.Erased? && cur.cont.Erased? && cur.brk.Erased?
    requires st == if broke then Active(st.env, None, None, Some(Live(env)), None)
                   else Active(st.env, None, Some(Live(env)), None, None)
    ensures RunFrom(w, LowerStatements([cond] + post, NoTail), cur, st, n)
            == Waited(if broke then Break else Continue, env)
  {
    hide EvalChan, ExecOp;
    var end := [cond] + post;
    assert end[0] == cond && end[1..] == post;
    HeadWaits(w, cond, st, n);
    SingleOp(w, LowerStatement(cond), st, n);
    var layers := LowerStatements(post, NoTail);
    assert LowerStatements(end, NoTail) == [Layer([LowerStatement(cond)])] + layers;
    var k := CloseLayer(Forward(st, Control(Erased, Erased, Erased, Pending)));
    WaitingLayers(w, layers, Applied(cur, k), n);
  }

  /* ---- One body ---- */

  lemma AfterExits(w: World, pre: seq<Stmt>, jump: Stmt, mid: seq<Stmt>, cond: Stmt, post: seq<Stmt>, s: Store, n: nat)
    requires Waits(jump, mid, cond) && Finishes(w, pre, s, n)
    ensures var b := pre + After(jump, mid, cond, post);
            HasCloser(b) && StmtExits(jump) <= BodyExits(b)
  {
    BodyExitsSound(w, pre, s, n);
    var end := After(jump, mid, cond, post);
    assert end[0] == jump;
    ExitsSplit(pre, end);
    JumpExits(jump, end);
  }

  /* The channels of such a body: what its exits do not cut stays pending. */
  lemma PostJumpChannels(w: World, pre: seq<Stmt>, jump: Stmt, mid: seq<Stmt>, cond: Stmt, post: seq<Stmt>,
                         s: Store, n: nat)
    requires Waits(jump, mid, cond) && Finishes(w, pre, s, n)
    ensures var b := pre + After(jump, mid, cond, post);
            var s' := RunBody(w, pre, s, n).outcome.store;
            && RunBody(w, b, s, n) == Done(if jump.Break? then Brk(s') else Cont(s'))
            && RunFlow(w, LowerBody(b), Live(Good(s)), n) == Shortcut(Waited(jump, Good(s')), BodyExits(b))
            && StmtExits(jump) <= BodyExits(b)
  {
    hide RunFrom, LowerStatements, OrderlyStmt, BodyExits;
    var b := pre + After(jump, mid, cond, post);
    var s' := RunBody(w, pre, s, n).outcome.store;
    var cur := Control(Erased, Erased, Erased, Live(Good(s)));
    AfterExits(w, pre, jump, mid, cond, post, s, n);
    RunPrefix(w, pre, After(jump, mid, cond, post), s, n);
    JumpRun(w, After(jump, mid, cond, post), s', n);
    var cur' := PrefixSim(w, pre, After(jump, mid, cond, post), NoTail, s, cur, Open(cur.fin), n);
    JumpThenWait(w, jump, mid, cond, post, cur', Good(s'), n);
    EnterList(w, b, NoTail, cur, n);
  }

  lemma JumpRun(w: World, b: seq<Stmt>, s: Store, n: nat)
    requires b != [] && (b[0].Break? || b[0].Continue?)
    ensures RunBody(w, b, s, n) == Done(if b[0].Break? then Brk(s) else Cont(s))
  {
  }

  lemma EnterList(w: World, b: seq<Stmt>, tail: Tail, cur: Control, n: nat)
    ensures RunLayers(w, LowerStatements(b, tail), cur, n)
            == RunFrom(w, LowerStatements(b, tail), cur, Open(cur.fin), n)
  {
  }

  /** The outcome is read right exactly when the body cannot return and, after a
      break, cannot continue: the channels read before the jump's are then cut. */
  lemma PostJumpExactly(w: World, pre: seq<Stmt>, jump: Stmt, mid: seq<Stmt>, cond: Stmt, post: seq<Stmt>,
                        s: Store, n: nat)
    requires Waits(jump, mid, cond) && Finishes(w, pre, s, n)
    ensures var b := pre + After(jump, mid, cond, post);
            && RunBody(w, b, s, n).Done?
            && (FirstLive(RunFlow(w, LowerBody(b), Live(Good(s)), n)) == ReadingOf(RunBody(w, b, s, n).outcome)
                <==> Returns !in BodyExits(b) && (jump.Break? ==> Continues !in BodyExits(b)))
  {
    PostJumpChannels(w, pre, jump, mid, cond, post, s, n);
  }

  /** In a loop, a turn that ends so by continue recurs with its store exactly when
      the body can neither return nor break. */
  lemma PostContinueTurnExactly(w: World, pre: seq<Stmt>, mid: seq<Stmt>, cond: Stmt, post: seq<Stmt>, s: Store, n: nat)
    requires Waits(Continue, mid, cond) && Finishes(w, pre, s, n)
    ensures var b := pre + After(Continue, mid, cond, post);
            Route(RunFlow(w, LowerBody(b), Live(Good(s)), n))
              == Routed(Erased, Erased, Live(Good(RunBody(w, pre, s, n).outcome.store)))
            <==> {Returns, Breaks} !! BodyExits(b)
  {
    PostJumpChannels(w, pre, Continue, mid, cond, post, s, n);
  }

  // Nothing of the list leaves a finish bundle beside a continue.
  predicate ContinuesCleanly(pre: seq<Stmt>) {
    forall i :: 0 <= i < |pre| ==> !IsJump(pre[i]) && (IsCompound(pre[i]) ==> ContinueResidue(pre[i]).Clean?)
  }

  // Turns that continue out of `pre`, and one that breaks in this way.
  ghost predicate BreaksSo(w: World, loop: Stmt, it: Option<Value>, pre: seq<Stmt>, mid: seq<Stmt>, cond: Stmt,
                     post: seq<Stmt>, s: Store, n: nat)
    decreases n
  {
    && IsLoop(loop) && n >= 1 && Advance(w, loop, it, s).Enter?
    && Waits(Break, mid, cond) && loop.body == pre + After(Break, mid, cond, post) && AllOrderly(pre)
    && var Enter(s', it') := Advance(w, loop, it, s);
       match RunBody(w, pre, s', n - 1)
       case Done(Finish(_)) => true
       case Done(Cont(s'')) => ContinuesCleanly(pre) && BreaksSo(w, loop, it', pre, mid, cond, post, s'', n - 1)
       case _ => false
  }

  ghost function BreakStore(w: World, loop: Stmt, it: Option<Value>, pre: seq<Stmt>, mid: seq<Stmt>, cond: Stmt,
                      post: seq<Stmt>, s: Store, n: nat): Store
    requires BreaksSo(w, loop, it, pre, mid, cond, post, s, n)
    decreases n
  {
    var Enter(s', it') := Advance(w, loop, it, s);
    var o := RunBody(w, pre, s', n - 1).outcome;
    if o.Finish? then o.store else BreakStore(w, loop, it', pre, mid, cond, post, o.store, n - 1)
  }

  /* A list left by a continue that leaves nothing beside it. */
  lemma {:induction false} PrefixContinues(w: World, pre: seq<Stmt>, rest: seq<Stmt>, tail: Tail,
                                           s: Store, cur: Control, st: LayerState, n: nat)
    requires AllOrderly(pre) && ContinuesCleanly(pre)
    requires RunBody(w, pre, s, n).Done? && RunBody(w, pre, s, n).outcome.Cont?
    requires cur.ret.Erased? && cur.cont.Erased? && cur.brk.Erased?
    requires st == Active(Good(s), None, None, None, None)
    ensures RunBody(w, pre + rest, s, n) == RunBody(w, pre, s, n)
    ensures RunFrom(w, LowerStatements(pre + rest, tail), cur, st, n)
         == Control(Erased, Live(Good(RunBody(w, pre, s, n).outcome.store)), Erased, Erased)
    decreases |pre|
  {
    hide CloseLayer, Masked, ExecOp, OrderlyStmt, ContinueResidue, Stalls, RunStmt;
    var b := pre + rest;
    assert b[1..] == pre[1..] + rest && b[0] == pre[0];
    var op := LowerStatement(b[0]);
    var after := LowerStatements(b[1..], tail);
    RunFirst(w, pre, s, n);
    var o := RunStmt(w, b[0], s, n).outcome;
    assert AllOrderly(pre[1..]) && ContinuesCleanly(pre[1..]) by {
      assert forall i :: 0 <= i < |pre[1..]| ==> pre[1..][i] == pre[i + 1];
    }
    if IsCompound(b[0]) {
      assert LowerStatements(b, tail)[0].ops == [op] && LowerStatements(b, tail)[1..] == after;
      SingleOp(w, op, st, n);
      CompoundSim(w, b[0], s, st, n);
      var k := CloseLayer(ExecOp(w, op, st, n));
      var next := Applied(cur, k);
      if o.Finish? {
        FinishShows(o, cur, k, ContinueResidue(b[0]), Stalls(b[0]), false);
        PrefixContinues(w, pre[1..], rest, tail, o.store, next, Open(next.fin), n);
      } else {
        OnlyContinue(cur, k, o);
        InertLayers(w, after, next, n);
      }
    } else {
      PrependRuns(w, op, after, cur, st, n);
      SimpleSim(w, b[0], s, st, n);
      NoJumpFinishes(w, b[0], s, n);
      PrefixContinues(w, pre[1..], rest, tail, o.store, cur, ExecOp(w, op, st, n), n);
    }
  }

  lemma OnlyContinue(cur: Control, k: Control, o: Outcome)
    requires o.Cont? && k == Control(Erased, Live(Good(o.store)), Erased, Erased)
    requires cur.ret.Erased? && cur.cont.Erased? && cur.brk.Erased?
    ensures Applied(cur, k) == k
  {
  }

  lemma NoJumpFinishes(w: World, stmt: Stmt, s: Store, n: nat)
    requires !IsCompound(stmt) && !IsJump(stmt) && RunStmt(w, stmt, s, n).Done?
    ensures RunStmt(w, stmt, s, n).outcome.Finish?
  {
  }

  lemma TurnContinues(w: World, pre: seq<Stmt>, rest: seq<Stmt>, s: Store, n: nat)
    requires AllOrderly(pre) && ContinuesCleanly(pre)
    requires RunBody(w, pre, s, n).Done? && RunBody(w, pre, s, n).outcome.Cont?
    ensures var b, s' := pre + rest, RunBody(w, pre, s, n).outcome.store;
            && RunBody(w, b, s, n) == Done(Cont(s'))
            && RunFlow(w, LowerBody(b), Live(Good(s)), n) == Control(Erased, Live(Good(s')), Erased, Erased)
  {
    hide RunFrom, LowerStatements, OrderlyStmt, BodyExits, RunBody;
    var b := pre + rest;
    var cur := Control(Erased, Erased, Erased, Live(Good(s)));
    PrefixContinues(w, pre, rest, BodyTail(b), s, cur, Open(cur.fin), n);
    EnterList(w, b, BodyTail(b), cur, n);
    BodyExitsSound(w, b, s, n);
  }

  // The breaking turn itself.
  lemma BreakingTurn(w: World, loop: Stmt, it: Option<Value>, pre: seq<Stmt>, mid: seq<Stmt>, cond: Stmt,
                     post: seq<Stmt>, s: Store, n: nat)
    requires BreaksSo(w, loop, it, pre, mid, cond, post, s, n)
    requires RunBody(w, pre, Advance(w, loop, it, s).store, n - 1).outcome.Finish?
    ensures var s' := RunBody(w, pre, Advance(w, loop, it, s).store, n - 1).outcome.store;
            var c := RunAgent(w, LowerLoop(loop), Live(Good(s)), AsChan(it), n);
            && RunLoop(w, loop, it, s, n) == Done(Finish(s'))
            && (FirstLive(c) == ReadsFinish(Good(s'))
                <==> {Returns, Continues, Breaks} !! StmtExits(loop)
                     || {Fallthrough, Returns, Continues} !! BodyExits(loop.body))
            && (Returns in BodyExits(loop.body) ==> c.ret.Pending?)
            && (c.ret.Erased? ==> c.fin == Live(Good(s'))) && c == Shortcut(c, StmtExits(loop))
  {
    hide RunBody, RunFlow, LowerBody, TurnHeader, BodyExits, Waits, Advance;
    var turn := Advance(w, loop, it, s);
    HeaderSim(w, loop, it, s);
    PostJumpChannels(w, pre, Break, mid, cond, post, turn.store, n - 1);
    assert Breaks in BodyExits(loop.body);
    assert StmtExits(loop) == LoopExits(BodyExits(loop.body), BodyExits(loop.orelse));
    var s' := RunBody(w, pre, turn.store, n - 1).outcome.store;
    var agent := LowerLoop(loop);
    var r := Route(Shortcut(Waited(Break, Good(s')), BodyExits(loop.body)));
    var rec := Shortcut(RunAgent(w, agent, r.again, AsChan(turn.it), n - 1), agent.exits);
    assert RunAgent(w, agent, Live(Good(s)), AsChan(it), n) == Shortcut(Rejoin(r, rec), agent.exits);
  }

  // A turn that continues hands on the channels of the turns after it.
  lemma ContinuingTurn(w: World, loop: Stmt, it: Option<Value>, pre: seq<Stmt>, mid: seq<Stmt>, cond: Stmt,
                       post: seq<Stmt>, s: Store, n: nat)
    requires BreaksSo(w, loop, it, pre, mid, cond, post, s, n)
    requires RunBody(w, pre, Advance(w, loop, it, s).store, n - 1).outcome.Cont?
    ensures var Enter(s', it') := Advance(w, loop, it, s);
            var s'' := RunBody(w, pre, s', n - 1).outcome.store;
            var again := RunAgent(w, LowerLoop(loop), Live(Good(s'')), AsChan(it'), n - 1);
            var rec := Shortcut(again, StmtExits(loop));
            && RunLoop(w, loop, it, s, n) == RunLoop(w, loop, it', s'', n - 1)
            && RunAgent(w, LowerLoop(loop), Live(Good(s)), AsChan(it), n)
               == Shortcut(Control(rec.ret, rec.cont, rec.brk, Live(Split(rec.fin))), StmtExits(loop))
  {
    hide RunBody, RunFlow, LowerBody, TurnHeader, BodyExits, StmtExits, Waits, Advance, ContinuesCleanly, Split;
    var turn := Advance(w, loop, it, s);
    HeaderSim(w, loop, it, s);
    TurnContinues(w, pre, After(Break, mid, cond, post), turn.store, n - 1);
  }

  /** A loop left so by break, in whatever turn, finishes right exactly when nothing
      but its finish can come out of it, or its body can do nothing but break. */
  lemma {:induction false} PostBreakLoopExactly(w: World, loop: Stmt, it: Option<Value>, pre: seq<Stmt>,
                                                mid: seq<Stmt>, cond: Stmt, post: seq<Stmt>, s: Store, n: nat)
    requires BreaksSo(w, loop, it, pre, mid, cond, post, s, n)
    ensures var s' := BreakStore(w, loop, it, pre, mid, cond, post, s, n);
            var c := RunAgent(w, LowerLoop(loop), Live(Good(s)), AsChan(it), n);
            && RunLoop(w, loop, it, s, n) == Done(Finish(s'))
            && (FirstLive(c) == ReadsFinish(Good(s'))
                <==> {Returns, Continues, Breaks} !! StmtExits(loop)
                     || {Fallthrough, Returns, Continues} !! BodyExits(loop.body))
            && (Returns in BodyExits(loop.body) ==> c.ret.Pending?)
            && (c.ret.Erased? ==> c.fin == Live(Good(s'))) && c == Shortcut(c, StmtExits(loop))
    decreases n
  {
    hide RunBody, RunFlow, RunAgent, RunLoop, LowerBody, TurnHeader, BodyExits, Waits, Advance, ContinuesCleanly;
    var Enter(s', it') := Advance(w, loop, it, s);
    var o := RunBody(w, pre, s', n - 1).outcome;
    if o.Finish? {
      BreakingTurn(w, loop, it, pre, mid, cond, post, s, n);
    } else {
      PostBreakLoopExactly(w, loop, it', pre, mid, cond, post, o.store, n - 1);
      ContinuingTurn(w, loop, it, pre, mid, cond, post, s, n);
      ContinuingKeeps(w, loop, it, pre, mid, cond, post, s, n);
    }
  }

  lemma ContinuingKeeps(w: World, loop: Stmt, it: Option<Value>, pre: seq<Stmt>, mid: seq<Stmt>, cond: Stmt,
                        post: seq<Stmt>, s: Store, n: nat)
    requires BreaksSo(w, loop, it, pre, mid, cond, post, s, n)
    ensures Breaks in BodyExits(loop.body) && Fallthrough in StmtExits(loop)
    ensures Returns in BodyExits(loop.body) ==> Returns in StmtExits(loop)
    decreases n
  {
    hide RunFlow, LowerBody, BodyExits, Waits;
    var Enter(s', it') := Advance(w, loop, it, s);
    var o := RunBody(w, pre, s', n - 1).outcome;
    if o.Finish? {
      AfterExits(w, pre, Break, mid, cond, post, s', n - 1);
    } else {
      ContinuingKeeps(w, loop, it', pre, mid, cond, post, o.store, n - 1);
    }
  }

  /** So a conditional after `continue` starves the return channel of a body that
      also returns, for every store and every fuel, although the source continues. */
  lemma PostContinueStarves(w: World, test: Expr, e: Expr, x: Name, s: Store, n: nat)
    requires Eval(test, s).Some? && !w.truthy(Eval(test, s).value)
    ensures var b := [If(test, [Return(Some(e))], []), Continue, If(Var(x), [], [])];
            && WellClosed(b)
            && RunBody(w, b, s, n) == Done(Cont(s))
            && RunFlow(w, LowerBody(b), Live(Good(s)), n).ret.Pending?
  {
    var pre, cond := [If(test, [Return(Some(e))], [])], If(Var(x), [], []);
    var b := pre + After(Continue, [], cond, []);
    GuardFinishes(w, test, e, Continue, x, s, n);
    PostJumpChannels(w, pre, Continue, [], cond, [], s, n);
    assert b == [pre[0], Continue, cond];
  }

  // `if test: return e`, a jump, and a conditional on x.
  lemma GuardFinishes(w: World, test: Expr, e: Expr, jump: Stmt, x: Name, s: Store, n: nat)
    requires Eval(test, s).Some? && !w.truthy(Eval(test, s).value) && (jump.Break? || jump.Continue?)
    ensures var pre, cond := [If(test, [Return(Some(e))], [])], If(Var(x), [], []);
            var b := pre + After(jump, [], cond, []);
            && Finishes(w, pre, s, n) && RunBody(w, pre, s, n) == Done(Finish(s)) && Waits(jump, [], cond)
            && WellClosed(b) && BodyExits(b) == {Fallthrough, Returns} + StmtExits(jump)
  {
    var guard, cond := If(test, [Return(Some(e))], []), If(Var(x), [], []);
    assert [Return(Some(e))][1..] == [] && [guard][1..] == [] && After(jump, [], cond, []) == [jump, cond];
    GuardShape(test, e, jump, x);
    assert OrderlyBody([], false) && OrderlyBody([Return(Some(e))], false) && OrderlyStmt(guard);
    assert RunStmt(w, guard, s, n) == Done(Finish(s));
    assert EvalChan(Var(x), Moved([], DANGLING)) == Pending;
  }

  lemma GuardShape(test: Expr, e: Expr, jump: Stmt, x: Name)
    requires jump.Break? || jump.Continue?
    ensures var guard, cond := If(test, [Return(Some(e))], []), If(Var(x), [], []);
            var b := [guard] + After(jump, [], cond, []);
            && BodyExits([]) == {Fallthrough} && CollectedExits([Return(Some(e))]) == {Returns}
            && StmtExits(cond) == {Fallthrough} && StmtExits(guard) == {Fallthrough, Returns}
            && WellClosed(b) && BodyExits(b) == {Fallthrough, Returns} + StmtExits(jump)
  {
    var guard, cond := If(test, [Return(Some(e))], []), If(Var(x), [], []);
    var end := After(jump, [], cond, []);
    assert [Return(Some(e))][1..] == [];
    assert BodyExits([]) == {Fallthrough} && CollectedExits([Return(Some(e))]) == {Returns};
    assert StmtExits(cond) == {Fallthrough} && StmtExits(guard) == {Fallthrough, Returns};
    assert end == [jump, cond] && end[1..] == [cond] && [cond][1..] == [];
    var b := [guard] + end;
    assert b[0] == guard && b[1..] == end;
    assert CollectedExits(end) == StmtExits(jump);
    assert CollectedExits(b) == StmtExits(guard) + CollectedExits(end);
    assert AllValidPostExit([cond]) && WellClosed(end);
  }

  /* A whole function, for any x, r and any test that is false:
       while x:
           if test: return e
           break
           if x: pass
       return r                                                              */
  function Starved(test: Expr, e: Expr, x: Name): Stmt {
    While(Var(x), [If(test, [Return(Some(e))], [])] + After(Break, [], If(Var(x), [], []), []), [])
  }

  /** Python returns r; the net never returns anything. */
  lemma PostBreakStarvesFunction(w: World, test: Expr, e: Expr, x: Name, r: Value, s: Store, n: nat)
    requires x in s && w.truthy(s[x]) && Eval(test, s).Some? && !w.truthy(Eval(test, s).value) && n >= 1
    ensures var b := [Starved(test, e, x), Return(Some(Const(r)))];
            && WellClosed(b) && WellClosed(Starved(test, e, x).body) && {Breaks, Continues} !! BodyExits(b)
            && Call(w, b, s, n) == Done(Ret(r))
            && RunFlow(w, LowerFunction(b), Live(Good(s)), n).ret.Pending?
  {
    hide RunFlow, RunAgent, RunLoop, BodyExits, StmtExits, CollectedExits, FunctionExits, WellClosed;
    var pre, cond := [If(test, [Return(Some(e))], [])], If(Var(x), [], []);
    var loop, ret := Starved(test, e, x), Return(Some(Const(r)));
    GuardFinishes(w, test, e, Break, x, s, n - 1);
    assert Advance(w, loop, None, s) == Enter(s, None);
    assert BreaksSo(w, loop, None, pre, [], cond, [], s, n);
    PostBreakLoopExactly(w, loop, None, pre, [], cond, [], s, n);
    StarvedShape(test, e, x, r);
    assert [loop, ret][1..] == [ret] && [ret][1..] == [];
    assert RunStmt(w, loop, s, n) == Done(Finish(s)) && RunBody(w, [ret], s, n) == Done(Ret(r));
    StarvedFlow(w, loop, ret, s, n);
  }

  lemma StarvedShape(test: Expr, e: Expr, x: Name, r: Value)
    ensures var loop, ret := Starved(test, e, x), Return(Some(Const(r)));
            && WellClosed([loop, ret]) && WellClosed(loop.body)
            && BodyExits([]) == {Fallthrough} && StmtExits(loop) == {Fallthrough, Returns}
            && {Breaks, Continues} !! BodyExits([loop, ret]) && Returns in FunctionExits([loop, ret])
  {
    var loop, ret := Starved(test, e, x), Return(Some(Const(r)));
    var b := [loop, ret];
    GuardShape(test, e, Break, x);
    assert StmtExits(loop) == LoopExits(BodyExits(loop.body), BodyExits([])) == {Fallthrough, Returns};
    assert b[1..] == [ret] && [ret][1..] == [] && CollectedExits([ret]) == {Returns} && WellClosed([ret]);
    assert b[0] == loop && CollectedExits(b) == StmtExits(loop) + CollectedExits([ret]);
  }

  lemma StarvedFlow(w: World, loop: Stmt, ret: Stmt, s: Store, n: nat)
    requires loop.While? && ret.Return? && Returns in StmtExits(loop) && Returns in FunctionExits([loop, ret])
    requires RunAgent(w, LowerLoop(loop), Live(Good(s)), Erased, n).ret.Pending?
    ensures RunFlow(w, LowerFunction([loop, ret]), Live(Good(s)), n).ret.Pending?
  {
    hide RunAgent, StmtExits, FunctionExits;
    var b := [loop, ret];
    var tail := TailOf(b, FunctionExits(b));
    var cur := Control(Erased, Erased, Erased, Live(Good(s)));
    var layers := LowerStatements(b, tail);
    assert b[1..] == [ret] && layers[0].ops == [LowerStatement(loop)];
    SingleOp(w, LowerStatement(loop), Open(cur.fin), n);
    var k := CloseLayer(ExecOp(w, LowerStatement(loop), Open(cur.fin), n));
    PendingSticks(w, layers[1..], Applied(cur, k), n);
  }

  lemma {:induction false} PendingSticks(w: World, layers: seq<Layer>, cur: Control, n: nat)
    requires cur.ret.Pending?
    ensures RunLayers(w, layers, cur, n).ret.Pending?
    decreases |layers|
  {
    if layers != [] {
      var st := ExecOps(w, layers[0].ops, Open(cur.fin), n);
      PendingSticks(w, layers[1..], Applied(cur, CloseLayer(st)), n);
    }
  }
}
