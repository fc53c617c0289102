/** Channel exclusivity over whole runs: exactly one channel is live when a list is
    closed, unless the run left by a loop that leaks its finish bundle. */
module Exclusivity {
  import opened Options
  import opened Ir
  import opened Python
  import opened Channels
  import opened Flow
  import opened Lowering
  import opened Orderliness
  import opened LoweringCorrect
  import opened LoweringLimits
  import opened LeakyRuns
  import opened PostJump

  /* Liveness of the four channels of a run that leaks or does not. Beside a leak
     the other exits are erased, so that no mask waits for them. */
  predicate Leaves(o: Outcome, c: Control, leaks: bool) {
    && (c.ret.Live? <==> o.Ret?) && (c.cont.Live? <==> o.Cont?)
    && (c.brk.Live? <==> o.Brk?) && (c.fin.Live? <==> o.Finish? || leaks)
    && (leaks ==> Firm(o, c))
  }

  predicate Firm(o: Outcome, c: Control) {
    (c.ret.Live? || c.ret.Erased?) && (c.cont.Live? || c.cont.Erased?) && c.brk.Erased?
    && (c.ret.Live? <==> o.Ret?) && (c.cont.Live? <==> o.Cont?)
  }

  /* ---- Layers that bring nothing to life ---- */

  predicate SameExits(c: Control, d: Control) {
    (c.ret.Live? <==> d.ret.Live?) && (c.cont.Live? <==> d.cont.Live?) && (c.brk.Live? <==> d.brk.Live?)
  }

  lemma DullLayers(w: World, layers: seq<Layer>, cur: Control, n: nat)
    requires !cur.fin.Live?
    ensures SameExits(RunLayers(w, layers, cur, n), cur) && !RunLayers(w, layers, cur, n).fin.Live?
  {
    if cur.fin.Erased? {
      InertLayers(w, layers, cur, n);
    } else if layers != [] {
      WaitingLayers(w, layers, cur, n);
    }
  }

  // What follows a jump in its list lights no exit, and in the end no finish.
  lemma {:induction false} PostClose(w: World, rest: seq<Stmt>, cur: Control, st: LayerState, n: nat)
    requires AllValidPostExit(rest) && (st.Active? ==> st.fin.None?)
    ensures var c := RunFrom(w, LowerStatements(rest, NoTail), cur, st, n);
            SameExits(c, Applied(cur, CloseLayer(st))) && !c.fin.Live?
    decreases |rest|
  {
    hide RunFlow, RunAgent, EvalChan, LowerBody, LowerLoop, StmtExits;
    if rest != [] {
      var op := LowerStatement(rest[0]);
      var after := LowerStatements(rest[1..], NoTail);
      assert ValidPostExit(rest[0]);
      assert AllValidPostExit(rest[1..]) by {
        assert forall i :: 0 <= i < |rest[1..]| ==> rest[1..][i] == rest[i + 1];
      }
      if IsCompound(rest[0]) {
        assert LowerStatements(rest, NoTail) == [Layer([op])] + after;
        SingleOp(w, op, st, n);
        var next := Applied(cur, CloseLayer(ExecOp(w, op, st, n)));
        if st.Active? {
          PostCloseBranch(w, rest[0], st, n);
        }
        LayerAlike(cur, CloseLayer(ExecOp(w, op, st, n)), CloseLayer(st));
        EnterList(w, rest[1..], NoTail, next, n);
        PostClose(w, rest[1..], next, Open(next.fin), n);
      } else {
        PrependRuns(w, op, after, cur, st, n);
        PostCloseStep(w, rest[0], st, n);
        PostClose(w, rest[1..], cur, ExecOp(w, op, st, n), n);
      }
    }
  }

  lemma LayerAlike(cur: Control, k: Control, k': Control)
    requires k.ret == k'.ret && k.cont == k'.cont && k.brk == k'.brk
    ensures SameExits(Applied(cur, k), Applied(cur, k'))
  {
  }

  lemma PostCloseStep(w: World, stmt: Stmt, st: LayerState, n: nat)
    requires !IsCompound(stmt) && ValidPostExit(stmt)
    ensures var st' := ExecOp(w, LowerStatement(stmt), st, n);
            CloseLayer(st') == CloseLayer(st) && (st.Active? ==> st'.Active? && st'.fin == st.fin)
  {
  }

  /* ---- Runs ---- */

  // A jump sends on one channel only.
  lemma JumpSends(w: World, jump: Stmt, s: Store, cur: Control, st: LayerState, n: nat)
    requires IsJump(jump) && RunStmt(w, jump, s, n).Done? && st == Active(Good(s), None, None, None, None)
    requires cur.ret.Erased? && cur.cont.Erased? && cur.brk.Erased?
    ensures var st' := ExecOp(w, LowerStatement(jump), st, n);
            && st'.Active? && st'.fin.None?
            && Leaves(RunStmt(w, jump, s, n).outcome, Applied(cur, CloseLayer(st')), false)
  {
    if jump.Return? && jump.result.Some? {
      EvalGood(jump.result.value, s);
    }
  }

  lemma EmptySends(w: World, tail: Tail, s: Store, cur: Control, st: LayerState, n: nat)
    requires tail.FinishTail? && cur.ret.Erased? && cur.cont.Erased? && cur.brk.Erased?
    requires st == Active(Good(s), None, None, None, None)
    ensures Leaves(Finish(s), RunFrom(w, LowerStatements([], tail), cur, st, n), false)
  {
    var layers := LowerStatements([], tail);
    assert TailOps(tail)[1..] == [] && layers[1..] == [];
    assert ExecOps(w, TailOps(tail), st, n) == ExecOp(w, TailOps(tail)[0], st, n);
  }

  // Beside a break a loop's finish may be live; the next layer masks it.
  predicate LeavesStmt(o: Outcome, k: Control, leaks: bool) {
    if o.Brk? then k.brk.Live? && !k.ret.Live? && !k.cont.Live? && !leaks else Leaves(o, k, leaks)
  }

  lemma MaskedLeaves(o: Outcome, cur: Control, k: Control, res: Residue, stalls: bool, leaks: bool)
    requires Shows(o, k, res, stalls, false) && LeavesStmt(o, k, leaks) && !o.Finish?
    requires cur.ret.Erased? && cur.cont.Erased? && cur.brk.Erased?
    ensures Leaves(o, Applied(cur, k), leaks)
  {
  }

  // A leaked bundle that meets straight code only is handed on at the close.
  lemma StraightLeaves(w: World, o: Outcome, rest: seq<Stmt>, cur: Control, n: nat)
    requires StraightLine(rest) && Leaves(o, cur, true) && !o.Finish?
    ensures Leaves(o, RunLayers(w, LowerStatements(rest, FinishTail), cur, n), true)
  {
    hide Moved;
    var st := Open(cur.fin);
    assert rest + [] == rest;
    StraightPrefix(w, rest, [], FinishTail, cur, st, n);
    var st' := st.(env := Moved(rest, st.env));
    assert TailOps(FinishTail)[1..] == [] && LowerStatements([], FinishTail)[1..] == [];
    assert ExecOps(w, TailOps(FinishTail), st', n) == ExecOp(w, SendFinish, st', n);
    EnterList(w, rest, FinishTail, cur, n);
  }

  lemma {:induction false} BodyLeaves(w: World, b: seq<Stmt>, tail: Tail, exits: Exits, turn: bool,
                                      s: Store, cur: Control, st: LayerState, n: nat)
    requires Orderly(b, exits, turn) && Validated(b) && RunBody(w, b, s, n).Done? && PlainBody(w, b, s, n)
    requires tail == BodyTail(b)
    requires cur.ret.Erased? && cur.cont.Erased? && cur.brk.Erased?
    requires st == Active(Good(s), None, None, None, None)
    ensures Leaves(RunBody(w, b, s, n).outcome, RunFrom(w, LowerStatements(b, tail), cur, st, n), LeaksBody(w, b, s, n))
    decreases n, b, 3
  {
    hide Shows, Leaves, SameExits, CloseLayer, Masked, ExecOp, TailOps, ContinueResidue, OrderlyStmt, Stalls,
         ValidatedStmt, RunBody, RunStmt, StmtExits, PlainStmt, LeaksStmt;
    var layers := LowerStatements(b, tail);
    if b == [] {
      RunNothing(w, s, n);
      EmptySends(w, tail, s, cur, st, n);
    } else {
      var rest := LowerStatements(b[1..], tail);
      var op := LowerStatement(b[0]);
      RunFirst(w, b, s, n);
      var o := RunStmt(w, b[0], s, n).outcome;
      if IsCompound(b[0]) {
        assert layers[0].ops == [op] && layers[1..] == rest;
        SingleOp(w, op, st, n);
        CompoundSim(w, b[0], s, st, n);
        StmtExitsSound(w, b[0], s, n);
        var k := CloseLayer(ExecOp(w, op, st, n));
        var cur' := Applied(cur, k);
        if o.Finish? {
          FinishShows(o, cur, k, ContinueResidue(b[0]), Stalls(b[0]), false);
          BodyLeaves(w, b[1..], tail, exits, turn, o.store, cur', Open(cur'.fin), n);
        } else {
          CompoundLeaves(w, b[0], s, st, n);
          MaskedLeaves(o, cur, k, ContinueResidue(b[0]), Stalls(b[0]), LeaksStmt(w, b[0], s, n));
          RestLeaves(w, b, tail, s, cur', n);
        }
      } else {
        PrependRuns(w, op, rest, cur, st, n);
        SimpleSim(w, b[0], s, st, n);
        if o.Finish? {
          SimpleFinishes(w, b[0], s, n);
          BodyLeaves(w, b[1..], tail, exits, turn, o.store, cur, ExecOp(w, op, st, n), n);
        } else {
          JumpRuns(w, b[0], s, n);
          JumpSends(w, b[0], s, cur, st, n);
          PostClose(w, b[1..], cur, ExecOp(w, op, st, n), n);
          JumpLeaks(w, b[0], s, n);
          LeavesAfter(o, RunFrom(w, rest, cur, ExecOp(w, op, st, n), n),
                      Applied(cur, CloseLayer(ExecOp(w, op, st, n))));
        }
      }
    }
  }

  lemma JumpLeaks(w: World, st: Stmt, s: Store, n: nat)
    requires !IsCompound(st)
    ensures !LeaksStmt(w, st, s, n)
  {
  }

  // The layers after the statement the run leaves by.
  lemma RestLeaves(w: World, b: seq<Stmt>, tail: Tail, s: Store, cur: Control, n: nat)
    requires b != [] && IsCompound(b[0]) && RunStmt(w, b[0], s, n).Done? && tail == BodyTail(b)
    requires !RunStmt(w, b[0], s, n).outcome.Finish?
    requires LeaksStmt(w, b[0], s, n) ==> StraightLine(b[1..])
    requires Leaves(RunStmt(w, b[0], s, n).outcome, cur, LeaksStmt(w, b[0], s, n))
    ensures Leaves(RunStmt(w, b[0], s, n).outcome, RunLayers(w, LowerStatements(b[1..], tail), cur, n),
                   LeaksStmt(w, b[0], s, n))
  {
    if LeaksStmt(w, b[0], s, n) {
      LeakedStmt(w, b[0], s, n);
      StraightNeverCloses(b[1..]);
      StraightLeaves(w, RunStmt(w, b[0], s, n).outcome, b[1..], cur, n);
    } else {
      DullLayers(w, LowerStatements(b[1..], tail), cur, n);
    }
  }

  lemma LeavesAfter(o: Outcome, c: Control, d: Control)
    requires Leaves(o, d, false) && SameExits(c, d) && !c.fin.Live? && !o.Finish?
    ensures Leaves(o, c, false)
  {
  }

  lemma {:induction false} CompoundLeaves(w: World, stmt: Stmt, s: Store, st: LayerState, n: nat)
    requires IsCompound(stmt) && OrderlyStmt(stmt) && ValidatedStmt(stmt) && RunStmt(w, stmt, s, n).Done?
    requires PlainStmt(w, stmt, s, n) && !RunStmt(w, stmt, s, n).outcome.Finish?
    requires st == Active(Good(s), None, None, None, None)
    ensures LeavesStmt(RunStmt(w, stmt, s, n).outcome, CloseLayer(ExecOp(w, LowerStatement(stmt), st, n)),
                       LeaksStmt(w, stmt, s, n))
    decreases n, stmt, 2
  {
    hide RunFlow, RunAgent, RunBody, RunLoop, LowerBody, StmtExits, CloseLayer, Forward, Validated, OrderlyBody,
         LeaksBody, PlainBody, PlainLoop;
    StmtExitsSound(w, stmt, s, n);
    CompoundSim(w, stmt, s, st, n);
    var o := RunStmt(w, stmt, s, n).outcome;
    match stmt
    case If(test, thenBody, elseBody) =>
      var taken := if w.truthy(Eval(test, s).value) then thenBody else elseBody;
      var k := RunFlow(w, LowerBody(taken), Live(Good(s)), n);
      EvalGood(test, s);
      FlowLeaves(w, taken, false, s, n);
      if LeaksStmt(w, stmt, s, n) {
        LeakedStmt(w, stmt, s, n);
      }
      ForwardCloses(st, Shortcut(k, StmtExits(stmt)));
    case For(_, iter, _, _) =>
      EvalGood(iter, s);
      LoopStmtLeaves(w, stmt, w.iter(Eval(iter, s).value), s, st, n);
    case While(_, _, _) => LoopStmtLeaves(w, stmt, None, s, st, n);
  }

  lemma {:induction false} LoopStmtLeaves(w: World, loop: Stmt, it: Option<Value>, s: Store, st: LayerState, n: nat)
    requires IsLoop(loop) && OrderlyStmt(loop) && ValidatedStmt(loop) && RunLoop(w, loop, it, s, n).Done?
    requires PlainLoop(w, loop, it, s, n) && !RunLoop(w, loop, it, s, n).outcome.Finish?
    requires st == Active(Good(s), None, None, None, None)
    ensures var k := Forward(st, Shortcut(RunAgent(w, LowerLoop(loop), Live(Good(s)), AsChan(it), n), StmtExits(loop)));
            LeavesStmt(RunLoop(w, loop, it, s, n).outcome, CloseLayer(k), LeaksLoop(w, loop, it, s, n))
    decreases n, loop, 1
  {
    hide RunFlow, RunAgent, RunLoop, LowerBody, StmtExits, CloseLayer, Forward, Validated, OrderlyBody, PlainLoop;
    var o := RunLoop(w, loop, it, s, n).outcome;
    var c := RunAgent(w, LowerLoop(loop), Live(Good(s)), AsChan(it), n);
    LoopSim(w, loop, it, s, n);
    LoopExitsSound(w, loop, it, s, n);
    ForwardCloses(st, Shortcut(c, StmtExits(loop)));
    if !o.Brk? {
      LoopLeaves(w, loop, it, s, n);
    }
  }

  lemma {:induction false} FlowLeaves(w: World, b: seq<Stmt>, turn: bool, s: Store, n: nat)
    requires OrderlyBody(b, turn) && Validated(b) && RunBody(w, b, s, n).Done? && PlainBody(w, b, s, n)
    ensures Leaves(RunBody(w, b, s, n).outcome, RunFlow(w, LowerBody(b), Live(Good(s)), n), LeaksBody(w, b, s, n))
    decreases n, b, 4
  {
    hide Validated, Orderly;
    var cur := Control(Erased, Erased, Erased, Live(Good(s)));
    BodyExitsSound(w, b, s, n);
    BodyLeaves(w, b, BodyTail(b), BodyExits(b), turn, s, cur, Open(cur.fin), n);
    EnterList(w, b, BodyTail(b), cur, n);
    if LeaksBody(w, b, s, n) {
      LeakedBody(w, b, s, n);
    }
  }

  /* ---- Loops left by return or continue ---- */

  lemma {:induction false} LoopLeaves(w: World, loop: Stmt, it: Option<Value>, s: Store, n: nat)
    requires IsLoop(loop) && OrderlyStmt(loop) && ValidatedStmt(loop) && Escapes(RunLoop(w, loop, it, s, n))
    requires PlainLoop(w, loop, it, s, n)
    ensures Leaves(RunLoop(w, loop, it, s, n).outcome, RunAgent(w, LowerLoop(loop), Live(Good(s)), AsChan(it), n),
                   LeaksLoop(w, loop, it, s, n))
    decreases n, loop, 0
  {
    hide RunFlow, RunBody, LowerBody, BodyExits, StmtExits, TurnHeader, OrderlyBody, Validated, LeaksBody, PlainBody;
    HeaderSim(w, loop, it, s);
    LoopExitsSound(w, loop, it, s, n);
    assert OrderlyLoop(loop, loop.body, loop.orelse);
    match Advance(w, loop, it, s)
    case Exhausted(s') =>
      FlowLeaves(w, loop.orelse, false, s', n - 1);
      if LeaksBody(w, loop.orelse, s', n - 1) {
        LeakedBody(w, loop.orelse, s', n - 1);
        assert Fallthrough in BodyExits(loop.orelse) by { CollectedFall(loop.orelse); }
        assert StmtExits(loop) >= BodyExits(loop.orelse) by { ElseExits(loop); }
      }
    case Enter(_, _) =>
      LoopIsFirm(w, loop, it, s, n);
      LoopShows(w, loop, it, s, n);
  }

  lemma CollectedFall(b: seq<Stmt>)
    requires Fallthrough in CollectedExits(b)
    ensures Fallthrough in BodyExits(b)
  {
  }

  lemma ElseExits(loop: Stmt)
    requires IsLoop(loop)
    ensures StmtExits(loop) >= BodyExits(loop.orelse)
  {
  }

  // After a turn the finish is live unless it is cut.
  lemma LoopShows(w: World, loop: Stmt, it: Option<Value>, s: Store, n: nat)
    requires IsLoop(loop) && n > 0 && Advance(w, loop, it, s).Enter?
    ensures RunAgent(w, LowerLoop(loop), Live(Good(s)), AsChan(it), n).fin.Live? <==> Fallthrough in StmtExits(loop)
  {
    hide RunFlow, LowerBody, StmtExits, Route, TurnHeader;
    HeaderSim(w, loop, it, s);
  }

  // The other exits of a loop that settles are erased.
  lemma {:induction false} LoopIsFirm(w: World, loop: Stmt, it: Option<Value>, s: Store, n: nat)
    requires IsLoop(loop) && OrderlyStmt(loop) && Escapes(RunLoop(w, loop, it, s, n)) && SettlesLoop(w, loop, it, s, n)
    ensures Firm(RunLoop(w, loop, it, s, n).outcome, RunAgent(w, LowerLoop(loop), Live(Good(s)), AsChan(it), n))
    decreases n
  {
    hide RunFlow, RunBody, LowerBody, BodyExits, StmtExits, TurnHeader, OrderlyBody, NeatBody, Shows, Route;
    HeaderSim(w, loop, it, s);
    LoopExitsSound(w, loop, it, s, n);
    assert OrderlyLoop(loop, loop.body, loop.orelse);
    var agent := LowerLoop(loop);
    match Advance(w, loop, it, s)
    case Exhausted(s') => ElseIsFirm(w, loop, s', n);
    case Enter(s', it') =>
      FlowSim(w, loop.body, true, s', n - 1);
      var first := RunBody(w, loop.body, s', n - 1).outcome;
      var c := RunFlow(w, agent.body, Live(Good(s')), n - 1);
      RouteSim(first, c, BodyResidue(loop.body), TurnStalls(loop.body));
      if first.Ret? {
        ReturnIsFirm(w, loop, s', it', n);
      } else {
        LoopIsFirm(w, loop, it', first.store, n - 1);
      }
  }

  lemma ElseIsFirm(w: World, loop: Stmt, s: Store, n: nat)
    requires IsLoop(loop) && OrderlyStmt(loop) && n > 0 && Escapes(RunBody(w, loop.orelse, s, n - 1))
    requires Settles(w, loop, loop.orelse, s, n - 1)
    ensures Firm(RunBody(w, loop.orelse, s, n - 1).outcome,
                 Shortcut(RunFlow(w, LowerBody(loop.orelse), Live(Good(s)), n - 1), StmtExits(loop)))
  {
    hide RunFlow, RunBody, LowerBody, NeatBody, StmtExits, BodyExits;
    assert OrderlyLoop(loop, loop.body, loop.orelse);
    FlowSim(w, loop.orelse, false, s, n - 1);
    BodyExitsSound(w, loop.orelse, s, n - 1);
    ElseExits(loop);
    if NeatBody(w, loop.orelse, s, n - 1) && RunBody(w, loop.orelse, s, n - 1).outcome.Ret? {
      FlowNeat(w, loop.orelse, false, s, n - 1);
    }
  }

  lemma ReturnIsFirm(w: World, loop: Stmt, s: Store, it: Option<Value>, n: nat)
    requires IsLoop(loop) && OrderlyStmt(loop) && n > 0 && Settles(w, loop, loop.body, s, n - 1)
    requires RunBody(w, loop.body, s, n - 1).Done? && RunBody(w, loop.body, s, n - 1).outcome.Ret?
    requires Returns in StmtExits(loop)
    ensures var agent := LowerLoop(loop);
            var r := Route(RunFlow(w, agent.body, Live(Good(s)), n - 1));
            var rec := Shortcut(RunAgent(w, agent, r.again, AsChan(it), n - 1), agent.exits);
            Firm(RunBody(w, loop.body, s, n - 1).outcome, Shortcut(Rejoin(r, rec), agent.exits))
  {
    hide RunFlow, RunBody, LowerBody, NeatBody, StmtExits, BodyExits;
    assert OrderlyLoop(loop, loop.body, loop.orelse);
    FlowSim(w, loop.body, true, s, n - 1);
    if NeatBody(w, loop.body, s, n - 1) {
      FlowNeat(w, loop.body, true, s, n - 1);
    }
  }

  /* ---- Returns that leave nothing else ---- */

  lemma {:induction false} FlowNeat(w: World, b: seq<Stmt>, turn: bool, s: Store, n: nat)
    requires OrderlyBody(b, turn) && NeatBody(w, b, s, n)
    requires RunBody(w, b, s, n).Done? && RunBody(w, b, s, n).outcome.Ret?
    ensures RunFlow(w, LowerBody(b), Live(Good(s)), n)
            == Control(Live(RunBody(w, b, s, n).outcome.value), Erased, Erased, Erased)
    decreases n, b, 4
  {
    hide Orderly, NeatBody;
    var cur := Control(Erased, Erased, Erased, Live(Good(s)));
    BodyExitsSound(w, b, s, n);
    BodyNeat(w, b, BodyTail(b), BodyExits(b), turn, s, cur, Open(cur.fin), n);
    EnterList(w, b, BodyTail(b), cur, n);
  }

  lemma {:induction false} BodyNeat(w: World, b: seq<Stmt>, tail: Tail, exits: Exits, turn: bool,
                                    s: Store, cur: Control, st: LayerState, n: nat)
    requires Orderly(b, exits, turn) && NeatBody(w, b, s, n) && tail == BodyTail(b)
    requires RunBody(w, b, s, n).Done? && RunBody(w, b, s, n).outcome.Ret?
    requires cur.ret.Erased? && cur.cont.Erased? && cur.brk.Erased?
    requires st == Active(Good(s), None, None, None, None)
    ensures RunFrom(w, LowerStatements(b, tail), cur, st, n)
            == Control(Live(RunBody(w, b, s, n).outcome.value), Erased, Erased, Erased)
    decreases n, b, 3
  {
    hide Shows, CloseLayer, Masked, ExecOp, TailOps, ContinueResidue, OrderlyStmt, Stalls, RunBody, RunStmt, StmtExits,
         NeatStmt;
    var layers := LowerStatements(b, tail);
    var rest := LowerStatements(b[1..], tail);
    var op := LowerStatement(b[0]);
    RunFirst(w, b, s, n);
    var o := RunStmt(w, b[0], s, n).outcome;
    if IsCompound(b[0]) {
      assert layers[0].ops == [op] && layers[1..] == rest;
      SingleOp(w, op, st, n);
      StmtExitsSound(w, b[0], s, n);
      var k := CloseLayer(ExecOp(w, op, st, n));
      var cur' := Applied(cur, k);
      if o.Finish? {
        CompoundSim(w, b[0], s, st, n);
        FinishShows(o, cur, k, ContinueResidue(b[0]), Stalls(b[0]), false);
        BodyNeat(w, b[1..], tail, exits, turn, o.store, cur', Open(cur'.fin), n);
      } else {
        CompoundNeat(w, b[0], s, st, n);
        OnlyReturn(cur, k, o.value);
        InertLayers(w, rest, cur', n);
      }
    } else {
      PrependRuns(w, op, rest, cur, st, n);
      SimpleSim(w, b[0], s, st, n);
      if o.Finish? {
        SimpleFinishes(w, b[0], s, n);
        BodyNeat(w, b[1..], tail, exits, turn, o.store, cur, ExecOp(w, op, st, n), n);
      } else {
        JumpRuns(w, b[0], s, n);
        JumpNeat(w, b, s, cur, st, n);
      }
    }
  }

  lemma OnlyReturn(cur: Control, k: Control, v: Value)
    requires k == Control(Live(v), Erased, Erased, Erased) && cur.ret.Erased? && cur.cont.Erased? && cur.brk.Erased?
    ensures Applied(cur, k) == k
  {
  }

  // A return and straight code.
  lemma JumpNeat(w: World, b: seq<Stmt>, s: Store, cur: Control, st: LayerState, n: nat)
    requires b != [] && b[0].Return? && StraightLine(b[1..]) && RunStmt(w, b[0], s, n).Done?
    requires cur.ret.Erased? && cur.cont.Erased? && cur.brk.Erased?
    requires st == Active(Good(s), None, None, None, None)
    ensures RunFrom(w, LowerStatements(b[1..], BodyTail(b)), cur, ExecOp(w, LowerStatement(b[0]), st, n), n)
            == Control(Live(RunStmt(w, b[0], s, n).outcome.value), Erased, Erased, Erased)
  {
    SimpleSim(w, b[0], s, st, n);
    StraightLineKeeps(w, b[1..], ExecOp(w, LowerStatement(b[0]), st, n), n);
    assert LowerStatements(b[1..], NoTail)[1..] == [];
  }

  lemma {:induction false} CompoundNeat(w: World, stmt: Stmt, s: Store, st: LayerState, n: nat)
    requires IsCompound(stmt) && OrderlyStmt(stmt) && NeatStmt(w, stmt, s, n)
    requires RunStmt(w, stmt, s, n).Done? && RunStmt(w, stmt, s, n).outcome.Ret?
    requires st == Active(Good(s), None, None, None, None)
    ensures CloseLayer(ExecOp(w, LowerStatement(stmt), st, n))
            == Control(Live(RunStmt(w, stmt, s, n).outcome.value), Erased, Erased, Erased)
    decreases n, stmt, 2
  {
    hide RunFlow, RunAgent, RunBody, RunLoop, LowerBody, StmtExits, CloseLayer, Forward, OrderlyBody, NeatBody;
    StmtExitsSound(w, stmt, s, n);
    CompoundSim(w, stmt, s, st, n);
    match stmt
    case If(test, thenBody, elseBody) =>
      var taken := if w.truthy(Eval(test, s).value) then thenBody else elseBody;
      EvalGood(test, s);
      FlowNeat(w, taken, false, s, n);
      ForwardCloses(st, Shortcut(RunFlow(w, LowerBody(taken), Live(Good(s)), n), StmtExits(stmt)));
    case For(_, iter, _, _) =>
      EvalGood(iter, s);
      var c := RunAgent(w, LowerLoop(stmt), Live(Good(s)), AsChan(w.iter(Eval(iter, s).value)), n);
      ForwardCloses(st, Shortcut(c, StmtExits(stmt)));
    case While(_, _, _) =>
      ForwardCloses(st, Shortcut(RunAgent(w, LowerLoop(stmt), Live(Good(s)), Erased, n), StmtExits(stmt)));
  }

  /* ---- Main results ---- */

  // The outcome's channel is the only live one.
  predicate Sole(o: Outcome, c: Control) {
    && (c.ret.Live? <==> o.Ret?) && (c.cont.Live? <==> o.Cont?)
    && (c.brk.Live? <==> o.Brk?) && (c.fin.Live? <==> o.Finish?)
  }

  /** When a run of a body ends, its outcome's channel is live at the close, and so
      is the finish channel exactly when the run leaks: the others are not. */
  lemma ExclusiveExactly(w: World, b: seq<Stmt>, turn: bool, s: Store, n: nat)
    requires OrderlyBody(b, turn) && Validated(b) && RunBody(w, b, s, n).Done? && PlainBody(w, b, s, n)
    ensures var c := RunFlow(w, LowerBody(b), Live(Good(s)), n);
            && (LiveCount(c) == 1 <==> !LeaksBody(w, b, s, n))
            && (Sole(RunBody(w, b, s, n).outcome, c) <==> !LeaksBody(w, b, s, n))
            && (LeaksBody(w, b, s, n) ==> Leaves(RunBody(w, b, s, n).outcome, c, true))
  {
    FlowLeaves(w, b, turn, s, n);
    if LeaksBody(w, b, s, n) {
      LeakedBody(w, b, s, n);
    }
  }

  /** So exactly one channel is live whenever the run finishes or breaks, and
      whenever no loop of the body can be left the way the run leaves. */
  lemma ExactlyOneLive(w: World, b: seq<Stmt>, turn: bool, s: Store, n: nat)
    requires OrderlyBody(b, turn) && Validated(b) && RunBody(w, b, s, n).Done?
    requires Tight(b, RunBody(w, b, s, n).outcome)
    ensures LiveCount(RunFlow(w, LowerBody(b), Live(Good(s)), n)) == 1
    ensures Sole(RunBody(w, b, s, n).outcome, RunFlow(w, LowerBody(b), Live(Good(s)), n))
  {
    TightBody(w, b, s, n);
    ExclusiveExactly(w, b, turn, s, n);
  }

  // Statements that finish, and a loop left by return or continue.
  predicate EscapesAt(w: World, pre: seq<Stmt>, loop: Stmt, s: Store, n: nat) {
    && IsLoop(loop) && RunBody(w, pre, s, n).Done? && RunBody(w, pre, s, n).outcome.Finish?
    && Escapes(RunStmt(w, loop, RunBody(w, pre, s, n).outcome.store, n))
  }

  // The loop made a turn, or its else clause leaks, and its exits do not cut it.
  predicate LoopLeaks(w: World, loop: Stmt, s: Store, n: nat)
    requires IsLoop(loop) && n > 0
  {
    && Fallthrough in StmtExits(loop)
    && match FirstTurn(w, loop, s)
       case Enter(_, _) => true
       case Exhausted(s') => LeaksBody(w, loop.orelse, s', n - 1)
       case Stuck => false
  }

  /** In a list: statements that finish, a loop left by return or continue, and
      straight code. One channel is live at the close exactly when the loop made no
      turn, or its own exits cut its finish. */
  lemma LoopClosesExactly(w: World, pre: seq<Stmt>, loop: Stmt, mid: seq<Stmt>, turn: bool, s: Store, n: nat)
    requires EscapesAt(w, pre, loop, s, n) && StraightLine(mid)
    requires PlainStmt(w, loop, RunBody(w, pre, s, n).outcome.store, n)
    requires OrderlyBody(pre + ([loop] + mid), turn) && Validated(pre + ([loop] + mid))
    ensures var b, s' := pre + ([loop] + mid), RunBody(w, pre, s, n).outcome.store;
            && n > 0 && RunBody(w, b, s, n) == RunStmt(w, loop, s', n)
            && (LiveCount(RunFlow(w, LowerBody(b), Live(Good(s)), n)) == 1 <==> !LoopLeaks(w, loop, s', n))
  {
    var b, s' := [loop] + mid, RunBody(w, pre, s, n).outcome.store;
    assert b[0] == loop && b[1..] == mid;
    RunPrefix(w, pre, b, s, n);
    LeaksPrefix(w, pre, b, s, n);
    LoopStmtLeaks(w, loop, s', n);
    ExclusiveExactly(w, pre + b, turn, s, n);
  }

  lemma LoopStmtLeaks(w: World, loop: Stmt, s: Store, n: nat)
    requires IsLoop(loop) && Escapes(RunStmt(w, loop, s, n))
    ensures n > 0 && (LeaksStmt(w, loop, s, n) <==> LoopLeaks(w, loop, s, n))
  {
    hide RunLoop, StmtExits, Advance, LeaksBody;
    var it := if loop.While? then None else w.iter(Eval(loop.iter, s).value);
    assert RunStmt(w, loop, s, n) == RunLoop(w, loop, it, s, n) && FirstTurn(w, loop, s) == Advance(w, loop, it, s);
    FuelForLoop(w, loop, it, s, n);
    assert LeaksStmt(w, loop, s, n) == LeaksLoop(w, loop, it, s, n);
  }

  lemma FuelForLoop(w: World, loop: Stmt, it: Option<Value>, s: Store, n: nat)
    requires IsLoop(loop) && RunLoop(w, loop, it, s, n).Done?
    ensures n > 0
  {
  }

  lemma {:induction false} LeaksPrefix(w: World, pre: seq<Stmt>, rest: seq<Stmt>, s: Store, n: nat)
    requires RunBody(w, pre, s, n).Done? && RunBody(w, pre, s, n).outcome.Finish?
    ensures LeaksBody(w, pre + rest, s, n) <==> LeaksBody(w, rest, RunBody(w, pre, s, n).outcome.store, n)
    ensures PlainBody(w, pre + rest, s, n) <==> PlainBody(w, rest, RunBody(w, pre, s, n).outcome.store, n)
    decreases |pre|
  {
    if pre == [] {
      assert pre + rest == rest;
    } else {
      assert (pre + rest)[1..] == pre[1..] + rest && (pre + rest)[0] == pre[0];
      LeaksPrefix(w, pre[1..], rest, RunStmt(w, pre[0], s, n).outcome.store, n);
    }
  }

  /** A function shows its return value and nothing else, whatever its loops leak. */
  lemma OnlyTheReturnLive(w: World, b: seq<Stmt>, s: Store, n: nat)
    requires OrderlyFunction(b) && {Breaks, Continues} !! BodyExits(b) && Call(w, b, s, n).Done?
    ensures Call(w, b, s, n).outcome.Ret?
    ensures RunFlow(w, LowerFunction(b), Live(Good(s)), n)
            == Control(Live(Call(w, b, s, n).outcome.value), Erased, Erased, Erased)
  {
    CallPreservesMeaning(w, b, s, n);
    OpenBodyFallsThrough(b);
  }

  /** A loop left by return shows a live finish beside it exactly when it made a turn
      and its exits do not cut the finish, or made none and its else clause leaks. */
  lemma ReturnLeaksExactly(w: World, loop: Stmt, it: Option<Value>, s: Store, n: nat)
    requires IsLoop(loop) && OrderlyStmt(loop)
    requires RunLoop(w, loop, it, s, n).Done? && RunLoop(w, loop, it, s, n).outcome.Ret?
    requires var t := Advance(w, loop, it, s);
             t.Exhausted? ==> Validated(loop.orelse) && PlainBody(w, loop.orelse, t.store, n - 1)
    ensures var c := RunAgent(w, LowerLoop(loop), Live(Good(s)), AsChan(it), n);
            && c.ret == Live(RunLoop(w, loop, it, s, n).outcome.value)
            && (c.fin.Live? <==> LeaksLoop(w, loop, it, s, n))
  {
    hide RunFlow, RunBody, LowerBody, BodyExits, StmtExits, TurnHeader, OrderlyBody, Validated, LeaksBody, PlainBody;
    LoopSim(w, loop, it, s, n);
    HeaderSim(w, loop, it, s);
    assert OrderlyLoop(loop, loop.body, loop.orelse);
    match Advance(w, loop, it, s)
    case Exhausted(s') =>
      FlowLeaves(w, loop.orelse, false, s', n - 1);
      if LeaksBody(w, loop.orelse, s', n - 1) {
        LeakedBody(w, loop.orelse, s', n - 1);
        CollectedFall(loop.orelse);
        ElseExits(loop);
      }
    case Enter(_, _) => LoopShows(w, loop, it, s, n);
  }

  /** Channel exclusivity fails on `while x: return x`: the return is live and
      the finish bundle looks live beside it, at every fuel that runs the turn. */
  lemma ExclusivityFails(w: World, x: Name, s: Store, n: nat)
    requires n >= 1 && x in s && w.truthy(s[x])
    ensures var loop := While(Var(x), [Return(Some(Var(x)))], []);
            var c := CloseLayer(ExecOp(w, LowerStatement(loop), Open(Live(Good(s))), n));
            c.ret == Live(s[x]) && c.fin.Live? && LiveCount(c) >= 2
  {
    var body := [Return(Some(Var(x)))];
    assert body[1..] == [] && BodyExits([]) == {Fallthrough} && CollectedExits(body) == {Returns};
    EvalGood(Var(x), s);
    assert RunStmt(w, body[0], s, n - 1) == Done(Ret(s[x]));
    assert OrderlyBody(body, true);
    FlowSim(w, body, true, s, n - 1);
  }
}
