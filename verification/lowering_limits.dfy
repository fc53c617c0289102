/** Where lowering does not preserve meaning, and exactly when its routing does.
    The finish bundle of a loop that made a turn is rebuilt element by element,
    so it looks live even when the loop left by another channel. */
module LoweringLimits {
  import opened Options
  import opened Ir
  import opened Python
  import opened Channels
  import opened Flow
  import opened Lowering
  import opened Orderliness
  import opened LoweringCorrect

  /* ---- Loop.true_case ---- */

  // The loop does with a body's channels what their first live channel asks.
  predicate RoutesFaithfully(c: Control) {
    var r := Route(c);
    match FirstLive(c)
    case ReadsReturn(v) => r == Routed(Live(v), Erased, Erased)
    case ReadsContinue(env) => r == Routed(Erased, Erased, Live(env))
    case ReadsFinish(env) => r == Routed(Erased, Erased, Live(env))
    case ReadsBreak(env) => r == Routed(Erased, Live(env), Erased)
    case Nothing => r == Routed(Erased, Erased, Erased)
    case Undetermined => true
  }

  /** `choice` is applied to break before continue has been considered, and to
      return not beside continue and finish at all: so the loop follows the reading
      order except when continue and break are both live, or when a continue or
      finish is live beside a return. In the second case it hands the value out and
      goes round again. */
  lemma RouteExactly(c: Control)
    requires Channels.Settled(c)
    ensures RoutesFaithfully(c) <==>
            !(c.ret.Erased? && c.cont.Live? && c.brk.Live?) && (c.ret.Live? ==> c.cont.Erased? && c.fin.Erased?)
    ensures c.ret.Live? && (c.cont.Live? || c.fin.Live?) ==> Route(c).ret == c.ret && Route(c).again.Live?
  {
    var r := Route(c);
    if c.ret.Erased? && c.cont.Live? && c.brk.Live? {
      assert FirstLive(c) == ReadsContinue(c.cont.v) && r.again.Erased?;
    }
  }

  /* ---- `for ... else: continue` followed by `break` ---- */

  function FirstTurn(w: World, loop: Stmt, s: Store): Turn
    requires IsLoop(loop)
  {
    if loop.While? then Advance(w, loop, None, s)
    else if Eval(loop.iter, s).None? then Stuck
    else Advance(w, loop, w.iter(Eval(loop.iter, s).value), s)
  }

  // What a bundle split from an erasure holds.
  const LEAKED: Env := Env(map[], Erased)

  // The else clause itself leaves nothing beside its continue.
  predicate LeaksOnlyTurns(loop: Stmt) {
    IsLoop(loop) && OrderlyStmt(loop) && Fallthrough in StmtExits(loop) && BodyResidue(loop.orelse).Clean?
  }

  /* A loop that made a turn and then continued the enclosing one leaks a finish
     bundle of erasures. */
  lemma {:induction false} LeaksAfterTurn(w: World, loop: Stmt, it: Option<Value>, s: Store, n: nat)
    requires LeaksOnlyTurns(loop)
    requires RunLoop(w, loop, it, s, n).Done? && RunLoop(w, loop, it, s, n).outcome.Cont?
    ensures RunAgent(w, LowerLoop(loop), Live(Good(s)), AsChan(it), n).fin
         == if Advance(w, loop, it, s).Enter? then Live(LEAKED) else Erased
    decreases n
  {
    hide RunFlow, RunBody, LowerBody, BodyExits, StmtExits, BodyResidue, TurnHeader, OrderlyBody,
      BodyStalls, TurnStalls;
    HeaderSim(w, loop, it, s);
    assert OrderlyLoop(loop, loop.body, loop.orelse);
    match Advance(w, loop, it, s)
    case Exhausted(s') => FlowSim(w, loop.orelse, false, s', n - 1);
    case Enter(s', it') =>
      FlowSim(w, loop.body, true, s', n - 1);
      var first := RunBody(w, loop.body, s', n - 1).outcome;
      var c := RunFlow(w, LowerLoop(loop).body, Live(Good(s')), n - 1);
      RouteSim(first, c, BodyResidue(loop.body), TurnStalls(loop.body));
      LeaksAfterTurn(w, loop, it', first.store, n - 1);
  }

  lemma FinishLiveExactly(w: World, loop: Stmt, s: Store, n: nat)
    requires LeaksOnlyTurns(loop)
    requires RunStmt(w, loop, s, n).Done? && RunStmt(w, loop, s, n).outcome.Cont?
    ensures CloseLayer(ExecOp(w, LowerStatement(loop), Open(Live(Good(s))), n)).fin
         == if FirstTurn(w, loop, s).Enter? then Live(LEAKED) else Erased
    ensures !FirstTurn(w, loop, s).Stuck?
  {
    var it := if loop.While? then None else w.iter(Eval(loop.iter, s).value);
    if loop.For? {
      EvalGood(loop.iter, s);
    }
    LeaksAfterTurn(w, loop, it, s, n);
  }

  // The statements before a loop finish, and the loop continues the enclosing one.
  predicate ContinuesAt(w: World, pre: seq<Stmt>, loop: Stmt, s: Store, n: nat) {
    && AllOrderly(pre) && LeaksOnlyTurns(loop)
    && RunBody(w, pre, s, n).Done? && RunBody(w, pre, s, n).outcome.Finish?
    && RunStmt(w, loop, RunBody(w, pre, s, n).outcome.store, n).Done?
    && RunStmt(w, loop, RunBody(w, pre, s, n).outcome.store, n).outcome.Cont?
  }

  // The loop of such a run starts with a turn.
  predicate MakesTurn(w: World, pre: seq<Stmt>, loop: Stmt, s: Store, n: nat)
    requires ContinuesAt(w, pre, loop, s, n)
  {
    FirstTurn(w, loop, RunBody(w, pre, s, n).outcome.store).Enter?
  }

  function ContinueStore(w: World, pre: seq<Stmt>, loop: Stmt, s: Store, n: nat): Store
    requires ContinuesAt(w, pre, loop, s, n)
  {
    RunStmt(w, loop, RunBody(w, pre, s, n).outcome.store, n).outcome.store
  }

  // The layers after such a loop run on an erasure, or on the leaked bundle.
  lemma AfterLoop(w: World, pre: seq<Stmt>, loop: Stmt, after: seq<Stmt>, tail: Tail, s: Store, n: nat)
    requires ContinuesAt(w, pre, loop, s, n)
    ensures var b := pre + ([loop] + after);
            var cur := Control(Erased, Erased, Erased, Live(Good(s)));
            var fin: Chan<Env> := if MakesTurn(w, pre, loop, s, n) then Live(LEAKED) else Erased;
            && RunBody(w, b, s, n) == Done(Cont(ContinueStore(w, pre, loop, s, n)))
            && RunLayers(w, LowerStatements(b, tail), cur, n)
               == RunLayers(w, LowerStatements(after, tail),
                            Control(Erased, Live(Good(ContinueStore(w, pre, loop, s, n))), Erased, fin), n)
  {
    hide ExecOp, CloseLayer, RunStmt, OrderlyStmt, BodyResidue, StmtExits, ContinueResidue, Stalls, FirstTurn;
    var cur := Control(Erased, Erased, Erased, Live(Good(s)));
    var s0 := RunBody(w, pre, s, n).outcome.store;
    var b := [loop] + after;
    assert b[0] == loop && b[1..] == after;
    RunPrefix(w, pre, b, s, n);
    var cur' := PrefixSim(w, pre, b, tail, s, cur, Open(cur.fin), n);
    var st := Open(Live(Good(s0)));
    CompoundSim(w, loop, s0, st, n);
    FinishLiveExactly(w, loop, s0, n);
    SingleOp(w, LowerStatement(loop), st, n);
    assert LowerStatements(b, tail) == [Layer([LowerStatement(loop)])] + LowerStatements(after, tail);
  }

  // Straight code, a jump and straight code, on what the loop left.
  lemma JumpAfterLeak(w: World, mid: seq<Stmt>, jump: Stmt, post: seq<Stmt>, cont: Env, fin: Chan<Env>, n: nat)
    requires StraightLine(mid) && StraightLine(post) && (jump.Break? || jump.Return?)
    requires fin == Erased || fin == Live(LEAKED)
    ensures var layers := LowerStatements(mid + ([jump] + post), NoTail);
            var c := RunLayers(w, layers, Control(Erased, Live(cont), Erased, fin), n);
            var env := Moved(mid, LEAKED);
            c == if fin.Erased? then Control(Erased, Live(cont), Erased, Erased)
                 else if jump.Break? then Control(Erased, Live(cont), Live(env), Erased)
                 else Control(if jump.result.None? then Live(w.none) else EvalChan(jump.result.value, env),
                              Live(cont), Erased, Erased)
  {
    var cur := Control(Erased, Live(cont), Erased, fin);
    var b := [jump] + post;
    assert b[0] == jump && b[1..] == post;
    var layers := LowerStatements(mid + b, NoTail);
    if fin.Erased? {
      InertLayers(w, layers, cur, n);
    } else {
      var st := Open(fin);
      StraightPrefix(w, mid, b, NoTail, cur, st, n);
      var st1 := st.(env := Moved(mid, LEAKED));
      PrependRuns(w, LowerStatement(jump), LowerStatements(post, NoTail), cur, st1, n);
      StraightLineKeeps(w, post, ExecOp(w, LowerStatement(jump), st1, n), n);
    }
  }

  /* ---- The exits of a list, in two parts ---- */

  lemma {:induction false} ExitsSplit(a: seq<Stmt>, b: seq<Stmt>)
    requires !HasCloser(a)
    ensures CollectedExits(a + b) == CollectedExits(a) + CollectedExits(b)
    ensures HasCloser(a + b) <==> HasCloser(b)
    decreases |a|
  {
    if a == [] {
      assert a + b == b;
    } else {
      assert (a + b)[1..] == a[1..] + b && (a + b)[0] == a[0];
      ExitsSplit(a[1..], b);
    }
  }

  lemma {:induction false} StraightNeverCloses(mid: seq<Stmt>)
    requires StraightLine(mid)
    ensures !HasCloser(mid)
    decreases |mid|
  {
    if mid != [] {
      assert !IsCompound(mid[0]) && !IsJump(mid[0]);
      assert StraightLine(mid[1..]) by {
        assert forall i :: 0 <= i < |mid[1..]| ==> mid[1..][i] == mid[i + 1];
      }
      StraightNeverCloses(mid[1..]);
    }
  }

  // A body of this shape may continue and may leave by its jump.
  lemma LeakExits(w: World, pre: seq<Stmt>, loop: Stmt, mid: seq<Stmt>, jump: Stmt, post: seq<Stmt>, s: Store, n: nat)
    requires ContinuesAt(w, pre, loop, s, n) && StraightLine(mid) && IsJump(jump)
    ensures var b := pre + ([loop] + (mid + ([jump] + post)));
            HasCloser(b) && Continues in BodyExits(b) && StmtExits(jump) <= BodyExits(b)
  {
    hide StmtExits, RunStmt;
    var s0 := RunBody(w, pre, s, n).outcome.store;
    BodyExitsSound(w, pre, s, n);
    StmtExitsSound(w, loop, s0, n);
    StraightNeverCloses(mid);
    var end, after := [jump] + post, mid + ([jump] + post);
    assert end[0] == jump && ([loop] + after)[0] == loop && ([loop] + after)[1..] == after;
    ExitsSplit(mid, end);
    ExitsSplit(pre, [loop] + after);
    JumpExits(jump, end);
  }

  lemma JumpExits(jump: Stmt, b: seq<Stmt>)
    requires IsJump(jump) && b != [] && b[0] == jump
    ensures CollectedExits(b) == StmtExits(jump) && HasCloser(b)
  {
  }

  /** In an enclosing loop: a loop that ends in its else clause with `continue`,
      anything that finishes before it, straight code and a `break` after it. The
      continue is honoured exactly when the inner loop made no turn. */
  lemma ElseContinueExactly(w: World, pre: seq<Stmt>, loop: Stmt, mid: seq<Stmt>, post: seq<Stmt>, s: Store, n: nat)
    requires ContinuesAt(w, pre, loop, s, n) && StraightLine(mid) && StraightLine(post)
    ensures var b := pre + ([loop] + (mid + ([Break] + post)));
            && RunBody(w, b, s, n) == Done(Cont(ContinueStore(w, pre, loop, s, n)))
            && (RoutesFaithfully(RunFlow(w, LowerBody(b), Live(Good(s)), n)) <==> !MakesTurn(w, pre, loop, s, n))
  {
    LeakThenBreak(w, pre, loop, mid, post, s, n);
    var b := pre + ([loop] + (mid + ([Break] + post)));
    RouteExactly(RunFlow(w, LowerBody(b), Live(Good(s)), n));
  }

  lemma LeakThenBreak(w: World, pre: seq<Stmt>, loop: Stmt, mid: seq<Stmt>, post: seq<Stmt>, s: Store, n: nat)
    requires ContinuesAt(w, pre, loop, s, n) && StraightLine(mid) && StraightLine(post)
    ensures var b := pre + ([loop] + (mid + ([Break] + post)));
            && RunBody(w, b, s, n) == Done(Cont(ContinueStore(w, pre, loop, s, n)))
            && RunFlow(w, LowerBody(b), Live(Good(s)), n)
               == Control(Erased, Live(Good(ContinueStore(w, pre, loop, s, n))),
                          if MakesTurn(w, pre, loop, s, n) then Live(Moved(mid, LEAKED)) else Erased, Erased)
  {
    hide LowerStatements, RunLayers, RunStmt, BodyExits, LeaksOnlyTurns;
    var after := mid + ([Break] + post);
    var fin: Chan<Env> := if MakesTurn(w, pre, loop, s, n) then Live(LEAKED) else Erased;
    LeakExits(w, pre, loop, mid, Break, post, s, n);
    AfterLoop(w, pre, loop, after, NoTail, s, n);
    JumpAfterLeak(w, mid, Break, post, Good(ContinueStore(w, pre, loop, s, n)), fin, n);
  }

  // No variable occurs in the expression.
  predicate Variableless(e: Expr)
    decreases e
  {
    match e
    case Const(_) => true
    case Var(_) => false
    case Dynamic(_, captures) => AllVariableless(captures)
  }

  predicate AllVariableless(es: seq<Expr>)
    decreases es
  {
    es == [] || (Variableless(es[0]) && AllVariableless(es[1..]))
  }

  lemma {:induction false} EvalLeaked(e: Expr, s: Store)
    ensures EvalChan(e, LEAKED) == if Variableless(e) then AsChan(Eval(e, s)) else Erased
    decreases e
  {
    match e
    case Dynamic(_, captures) => EvalsLeaked(captures, s);
    case _ =>
  }

  lemma {:induction false} EvalsLeaked(es: seq<Expr>, s: Store)
    ensures EvalChans(es, LEAKED) == if AllVariableless(es) then AsChan(EvalAll(es, s)) else Erased
    decreases es
  {
    if es != [] {
      EvalLeaked(es[0], s);
      EvalsLeaked(es[1..], s);
    }
  }

  /** The same with a return instead of the break: the continue is honoured exactly
      when the inner loop made no turn, or the returned expression is not live on
      the leaked registers. */
  lemma ElseContinueThenReturnExactly(w: World, pre: seq<Stmt>, loop: Stmt, mid: seq<Stmt>, e: Expr, post: seq<Stmt>,
                                      s: Store, n: nat)
    requires ContinuesAt(w, pre, loop, s, n) && StraightLine(mid) && StraightLine(post)
    ensures var b := pre + ([loop] + (mid + ([Return(Some(e))] + post)));
            && RunBody(w, b, s, n) == Done(Cont(ContinueStore(w, pre, loop, s, n)))
            && (FirstLive(RunFlow(w, LowerBody(b), Live(Good(s)), n)) == ReadingOf(RunBody(w, b, s, n).outcome)
                <==> !MakesTurn(w, pre, loop, s, n) || EvalChan(e, Moved(mid, LEAKED)).Erased?)
    ensures mid == [] ==> (EvalChan(e, Moved(mid, LEAKED)).Erased? <==> !Variableless(e) || Eval(e, s).None?)
  {
    hide LowerStatements, RunLayers, RunStmt, BodyExits, LeaksOnlyTurns;
    var jump := Return(Some(e));
    var after := mid + ([jump] + post);
    var fin: Chan<Env> := if MakesTurn(w, pre, loop, s, n) then Live(LEAKED) else Erased;
    LeakExits(w, pre, loop, mid, jump, post, s, n);
    AfterLoop(w, pre, loop, after, NoTail, s, n);
    JumpAfterLeak(w, mid, jump, post, Good(ContinueStore(w, pre, loop, s, n)), fin, n);
    EvalLeaked(e, s);
    MovedDecided(mid, LEAKED);
    EvalDecided(e, Moved(mid, LEAKED));
  }

  lemma {:induction false} MovedDecided(mid: seq<Stmt>, env: Env)
    requires StraightLine(mid) && NoPending(env)
    ensures NoPending(Moved(mid, env))
    decreases |mid|
  {
    if mid != [] {
      assert !IsCompound(mid[0]) && !IsJump(mid[0]);
      assert StraightLine(mid[1..]) by {
        assert forall i :: 0 <= i < |mid[1..]| ==> mid[1..][i] == mid[i + 1];
      }
      match mid[0]
      case Assign(targets, value) =>
        EvalDecided(value, env);
        WritesDecided(targets, EvalChan(value, env), env);
        MovedDecided(mid[1..], if targets == [] then env else WriteAll(targets, EvalChan(value, env), env));
      case AugAssign(target, op, operand) =>
        EvalsDecided([Var(target), operand], env);
        MovedDecided(mid[1..], env.Set(target, UpdateChan(target, op, operand, env)));
      case ExprStmt(_) => MovedDecided(mid[1..], env);
    }
  }

  /* A whole function, for any variable x, any falsy constant v and any world:
       while x:
           while x: x = v
           else: continue
           break
       return x                                                              */
  function Inner(x: Name, v: Value): Stmt {
    While(Var(x), [Assign([x], Const(v))], [Continue])
  }

  function Outer(x: Name, v: Value): Stmt {
    While(Var(x), [Inner(x, v), Break], [])
  }

  function Misrouted(x: Name, v: Value): seq<Stmt> {
    [Outer(x, v), Return(Some(Var(x)))]
  }

  // A while loop whose body shows a continue and a break goes by the break.
  lemma WhileMisroutes(w: World, loop: Stmt, s: Store, g0: Env, g: Env, n: nat)
    requires loop.While? && n >= 1 && StmtExits(loop) == {Fallthrough}
    requires Eval(loop.test, s).Some? && w.truthy(Eval(loop.test, s).value)
    requires RunFlow(w, LowerBody(loop.body), Live(Good(s)), n - 1) == Control(Erased, Live(g0), Live(g), Erased)
    ensures CloseLayer(ExecOp(w, LowerStatement(loop), Open(Live(Good(s))), n))
         == Control(Erased, Erased, Erased, Live(g))
  {
    EvalGood(loop.test, s);
    var agent := LowerLoop(loop);
    assert TurnHeader(w, agent.step, Good(s), Erased) == Header(Live(true), Good(s), Erased);
    assert RunAgent(w, agent, Erased, Erased, n - 1) == ERASED;
  }

  // A while loop that makes one turn and then continues from its else clause.
  lemma OneTurnThenContinue(w: World, loop: Stmt, s: Store, s': Store, n: nat)
    requires loop.While? && n >= 2 && StmtExits(loop) == {Fallthrough, Continues}
    requires OrderlyStmt(loop) && BodyResidue(loop.orelse).Clean?
    requires Eval(loop.test, s).Some? && w.truthy(Eval(loop.test, s).value)
    requires Eval(loop.test, s').Some? && !w.truthy(Eval(loop.test, s').value)
    requires RunBody(w, loop.body, s, n - 1) == Done(Finish(s'))
    requires RunBody(w, loop.orelse, s', n - 2) == Done(Cont(s'))
    ensures RunStmt(w, loop, s, n) == Done(Cont(s'))
    ensures CloseLayer(ExecOp(w, LowerStatement(loop), Open(Live(Good(s))), n))
         == Control(Erased, Live(Good(s')), Erased, Live(Env(map[], Erased)))
  {
    assert FirstTurn(w, loop, s).Enter? && RunLoop(w, loop, None, s', n - 1) == Done(Cont(s'));
    var st := Open(Live(Good(s)));
    CompoundSim(w, loop, s, st, n);
    FinishLiveExactly(w, loop, s, n);
  }

  lemma LowerOne(st: Stmt)
    requires !IsCompound(st)
    ensures LowerStatements([st], NoTail) == [Layer([LowerStatement(st)])]
  {
    assert [st][1..] == [];
    assert LowerStatements([], NoTail) == [Layer([])];
    assert [LowerStatement(st)] + [] == [LowerStatement(st)];
  }

  lemma TwoLayers(w: World, op: Op, op': Op, s: Store, n: nat)
    ensures var cur := Control(Erased, Erased, Erased, Live(Good(s)));
            var k := Applied(cur, CloseLayer(ExecOp(w, op, Open(Live(Good(s))), n)));
            RunLayers(w, [Layer([op]), Layer([op'])], cur, n)
            == Applied(k, CloseLayer(ExecOp(w, op', Open(k.fin), n)))
  {
    var layers := [Layer([op]), Layer([op'])];
    assert layers[1..] == [Layer([op'])] && layers[1..][1..] == [];
    SingleOp(w, op, Open(Live(Good(s))), n);
    var cur := Control(Erased, Erased, Erased, Live(Good(s)));
    var k := Applied(cur, CloseLayer(ExecOp(w, op, Open(Live(Good(s))), n)));
    SingleOp(w, op', Open(k.fin), n);
    var k' := Applied(k, CloseLayer(ExecOp(w, op', Open(k.fin), n)));
    assert RunLayers(w, layers[1..], k, n) == RunLayers(w, layers[1..][1..], k', n);
  }

  lemma LoopThenReturn(w: World, loop: Stmt, e: Expr, s: Store, g: Env, n: nat)
    requires IsLoop(loop) && StmtExits(loop) == {Fallthrough}
    requires CloseLayer(ExecOp(w, LowerStatement(loop), Open(Live(Good(s))), n))
          == Control(Erased, Erased, Erased, Live(g))
    ensures FunctionExits([loop, Return(Some(e))]) == {Returns} && WellClosed([loop, Return(Some(e))])
    ensures BodyExits([loop, Return(Some(e))]) == {Fallthrough, Returns}
    ensures RunFlow(w, LowerFunction([loop, Return(Some(e))]), Live(Good(s)), n).ret == EvalChan(e, g)
  {
    var ret := Return(Some(e));
    var b := [loop, ret];
    assert b[1..] == [ret] && [ret][1..] == [];
    assert CollectedExits([ret]) == {Returns} && WellClosed([ret]);
    assert CollectedExits(b) == {Fallthrough, Returns};
    assert LowerFunction(b) == BodyFlow([Layer([LowerStatement(loop)]), Layer([LowerStatement(ret)])], {Returns}) by {
      LowerOne(ret);
      assert HasCloser([ret]) && HasCloser(b);
    }
    TwoLayers(w, LowerStatement(loop), LowerStatement(ret), s, n);
  }

  lemma TurnThenStop(w: World, loop: Stmt, s: Store, s': Store, n: nat)
    requires loop.While? && loop.orelse == [] && n >= 2
    requires Eval(loop.test, s).Some? && w.truthy(Eval(loop.test, s).value)
    requires Eval(loop.test, s').Some? && !w.truthy(Eval(loop.test, s').value)
    requires RunBody(w, loop.body, s, n - 1) == Done(Cont(s'))
    ensures RunStmt(w, loop, s, n) == Done(Finish(s'))
  {
    assert RunLoop(w, loop, None, s', n - 1) == Done(Finish(s'));
  }

  lemma StopThenReturn(w: World, loop: Stmt, e: Expr, s: Store, s': Store, n: nat)
    requires RunStmt(w, loop, s, n) == Done(Finish(s')) && Eval(e, s').Some?
    ensures Call(w, [loop, Return(Some(e))], s, n) == Done(Ret(Eval(e, s').value))
  {
    var ret := Return(Some(e));
    assert [loop, ret][1..] == [ret];
    assert RunBody(w, [ret], s', n) == Done(Ret(Eval(e, s').value));
  }

  /** Python returns v and the net returns an erasure. */
  lemma ElseContinueMiscompiled(w: World, x: Name, v: Value, s: Store, n: nat)
    requires x in s && w.truthy(s[x]) && !w.truthy(v) && n >= 3
    ensures WellClosed(Misrouted(x, v)) && {Breaks, Continues} !! BodyExits(Misrouted(x, v))
    ensures Call(w, Misrouted(x, v), s, n) == Done(Ret(v))
    ensures RunFlow(w, LowerFunction(Misrouted(x, v)), Live(Good(s)), n).ret == Erased
  {
    hide RunStmt, RunFlow, Orderly, OrderlyStmt;
    var s' := s[x := v];
    var inner, outer := Inner(x, v), Outer(x, v);
    InnerExits(x, v);
    InnerChannels(w, x, v, s, n - 1);
    InnerThenBreak(w, x, v, s, n - 1);
    WhileMisroutes(w, outer, s, Good(s'), Env(map[], Erased), n);
    LoopThenReturn(w, outer, Var(x), s, Env(map[], Erased), n);
    TurnThenStop(w, outer, s, s', n);
    StopThenReturn(w, outer, Var(x), s, s', n);
  }

  lemma InnerThenBreak(w: World, x: Name, v: Value, s: Store, n: nat)
    requires x in s && w.truthy(s[x]) && !w.truthy(v) && n >= 2
    ensures RunBody(w, [Inner(x, v), Break], s, n) == Done(Cont(s[x := v]))
    ensures RunFlow(w, LowerBody([Inner(x, v), Break]), Live(Good(s)), n)
         == Control(Erased, Live(Good(s[x := v])), Live(LEAKED), Erased)
  {
    var inner := Inner(x, v);
    InnerExits(x, v);
    InnerChannels(w, x, v, s, n);
    assert RunBody(w, [], s, n) == Done(Finish(s)) && ContinuesAt(w, [], inner, s, n);
    LeakThenBreak(w, [], inner, [], [], s, n);
    assert [] + ([inner] + ([] + ([Break] + []))) == [inner, Break];
  }

  lemma InnerExits(x: Name, v: Value)
    ensures StmtExits(Inner(x, v)) == {Fallthrough, Continues} && StmtExits(Outer(x, v)) == {Fallthrough}
    ensures WellClosed([Inner(x, v), Break])
  {
    var inner := Inner(x, v);
    assert inner.body[1..] == [] && CollectedExits(inner.body) == {};
    assert CollectedExits(inner.orelse) == {Continues};
    assert [inner, Break][1..] == [Break] && CollectedExits([Break]) == {Breaks} && WellClosed([Break]);
    assert CollectedExits([inner, Break]) == StmtExits(inner) + {Breaks};
    assert BodyExits([]) == {Fallthrough};
  }

  lemma InnerOrderly(x: Name, v: Value)
    ensures OrderlyStmt(Inner(x, v)) && BodyResidue(Inner(x, v).orelse).Clean?
  {
    var inner := Inner(x, v);
    var body, orelse := inner.body, inner.orelse;
    assert body[1..] == [] && orelse[1..] == [] && OrderlyStmt(body[0]);
    assert !ListStalls([]) && !ListStalls(body);
    assert Orderly([], BodyExits(body), true) && OrderlyBody(body, true);
    assert StraightLine([]) && OrderlyBody(orelse, false);
    assert OrderlyLoop(inner, body, orelse);
  }

  lemma InnerChannels(w: World, x: Name, v: Value, s: Store, n: nat)
    requires x in s && w.truthy(s[x]) && !w.truthy(v) && n >= 2
    ensures OrderlyStmt(Inner(x, v)) && RunStmt(w, Inner(x, v), s, n) == Done(Cont(s[x := v]))
    ensures CloseLayer(ExecOp(w, LowerStatement(Inner(x, v)), Open(Live(Good(s))), n))
         == Control(Erased, Live(Good(s[x := v])), Erased, Live(Env(map[], Erased)))
  {
    var inner, s' := Inner(x, v), s[x := v];
    InnerExits(x, v);
    assert inner.body[1..] == [] && inner.orelse[1..] == [];
    InnerOrderly(x, v);
    assert AssignAll([x], v, s) == AssignAll([x][1..], v, s') == s';
    assert RunBody(w, inner.body, s, n - 1) == Done(Finish(s'));
    assert RunBody(w, inner.orelse, s', n - 2) == Done(Cont(s'));
    OneTurnThenContinue(w, inner, s, s', n);
  }

  /* ---- The net is lazier than the source ---- */

  function Forever(t: Value): Stmt {
    While(Const(t), [], [])
  }

  lemma {:induction false} ForeverDiverges(w: World, t: Value, s: Store, n: nat)
    requires w.truthy(t)
    ensures RunLoop(w, Forever(t), None, s, n) == OutOfFuel
    decreases n
  {
    if n > 0 {
      ForeverDiverges(w, t, s, n - 1);
    }
  }

  /** The converse of LoweringPreservesMeaning fails by design: for
      [while t: pass; return r] the net answers at once where the source never
      ends, because the loop's finish bundle is rebuilt before the loop is done. */
  lemma NetIsLazier(w: World, t: Value, r: Value, s: Store, n: nat)
    requires w.truthy(t)
    ensures !Call(w, [Forever(t), Return(Some(Const(r)))], s, n).Done?
    ensures n >= 1 ==> RunFlow(w, LowerFunction([Forever(t), Return(Some(Const(r)))]), Live(Good(s)), n).ret == Live(r)
  {
    var loop, ret := Forever(t), Return(Some(Const(r)));
    ForeverDiverges(w, t, s, n);
    assert RunStmt(w, loop, s, n) == OutOfFuel;
    if n >= 1 {
      var b := [loop, ret];
      assert b[1..] == [ret] && [ret][1..] == [];
      assert BodyExits([]) == {Fallthrough} && StmtExits(loop) == {Fallthrough};
      assert CollectedExits([ret]) == {Returns};
      assert b[0] == loop && CollectedExits(b) == StmtExits(loop) + CollectedExits([ret]);
      var op := LowerStatement(loop);
      assert LowerFunction(b) == BodyFlow([Layer([op]), Layer([LowerStatement(ret)])], {Returns}) by {
        LowerOne(ret);
        assert HasCloser([ret]) && HasCloser(b);
      }
      TwoLayers(w, op, LowerStatement(ret), s, n);
      assert RunBody(w, [], s, n - 1) == Done(Finish(s));
      FlowSim(w, [], false, s, n - 1);
      var agent := LowerLoop(loop);
      assert TurnHeader(w, agent.step, Good(s), Erased) == Header(Live(true), Good(s), Erased);
      var c := RunAgent(w, agent, Live(Good(s)), Erased, n);
      assert c.ret.Erased? && c.cont.Erased? && c.brk.Erased? && c.fin.Live?;
    }
  }
}
