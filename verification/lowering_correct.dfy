/** Compiler correctness: the first live channel of the lowered flow is the
    outcome of the source, with its payload. */
module LoweringCorrect {
  import opened Options
  import opened Ir
  import opened Python
  import opened Channels
  import opened Flow
  import opened Lowering
  import opened Orderliness

  /* ---- Stores as bundles ---- */

  function Good(s: Store): Env {
    Env(map x | x in s :: Live(s[x]), Erased)
  }

  function AsChan<T>(r: Option<T>): Chan<T> {
    if r.Some? then Live(r.value) else Erased
  }

  lemma {:induction false} EvalGood(e: Expr, s: Store)
    ensures EvalChan(e, Good(s)) == AsChan(Eval(e, s))
    decreases e
  {
    match e
    case Dynamic(fn, captures) => EvalAllGood(captures, s);
    case _ =>
  }

  lemma {:induction false} EvalAllGood(es: seq<Expr>, s: Store)
    ensures EvalChans(es, Good(s)) == AsChan(EvalAll(es, s))
    decreases es
  {
    if es != [] {
      EvalGood(es[0], s);
      EvalAllGood(es[1..], s);
    }
  }

  lemma GoodSet(s: Store, x: Name, v: Value)
    ensures Good(s).Set(x, Live(v)) == Good(s[x := v])
  {
    assert Good(s).Set(x, Live(v)).cells == Good(s[x := v]).cells;
  }

  lemma {:induction false} WriteAllGood(targets: seq<Name>, v: Value, s: Store)
    ensures WriteAll(targets, Live(v), Good(s)) == Good(AssignAll(targets, v, s))
  {
    if targets != [] {
      GoodSet(s, targets[0], v);
      WriteAllGood(targets[1..], v, s[targets[0] := v]);
    }
  }

  /* ---- The simulation relation ---- */

  predicate NoPending(env: Env) {
    !env.rest.Pending? && forall x :: x in env.cells ==> !env.cells[x].Pending?
  }

  // Erased, or a bundle all of whose cells have been decided.
  predicate Complete(c: Chan<Env>) {
    c.Erased? || (c.Live? && NoPending(c.v))
  }

  /* The channels show an outcome. Beside a live return anything may be live or
     pending. Beside a continue the finish channel holds what the residue says;
     beside a break it may be pending when the body stalls, and in the body of a
     loop so may the continue channel. */
  predicate Shows(o: Outcome, c: Control, res: Residue, stalls: bool, turn: bool) {
    match o
    case Finish(s) => c == Control(Erased, Erased, Erased, Live(Good(s)))
    case Ret(v) => c.ret == Live(v)
    case Brk(s) => c.ret.Erased? && c.brk == Live(Good(s)) && (turn || c.cont.Erased?)
                   && (stalls || (c.cont.Erased? && !c.fin.Pending?))
    case Cont(s) => c.ret.Erased? && c.cont == Live(Good(s)) && c.brk.Erased?
                    && (res.Clean? ==> c.fin.Erased?) && (res.Decided? ==> Complete(c.fin))
  }

  function ReadingOf(o: Outcome): Reading {
    match o
    case Finish(s) => ReadsFinish(Good(s))
    case Ret(v) => ReadsReturn(v)
    case Brk(s) => ReadsBreak(Good(s))
    case Cont(s) => ReadsContinue(Good(s))
  }

  /* A sound may-analysis makes every shortcut harmless. */
  lemma ShortcutKeeps(o: Outcome, c: Control, res: Residue, stalls: bool, turn: bool, exits: Exits)
    requires Shows(o, c, res, stalls, turn) && ExitOf(o) in exits
    ensures Shows(o, Shortcut(c, exits), res, stalls, turn)
  {
  }

  lemma ShowsMore(o: Outcome, c: Control, res: Residue, stalls: bool, turn: bool, res': Residue, stalls': bool)
    requires Shows(o, c, res, stalls, turn)
    requires (o.Cont? ==> Worse(res, res') == res') && (o.Brk? ==> stalls ==> stalls')
    ensures Shows(o, c, res', stalls', turn)
  {
  }

  // Once an exit channel is live no later layer changes it.
  lemma {:induction false} ExitSticks(w: World, layers: seq<Layer>, cur: Control, n: nat)
    ensures var c := RunLayers(w, layers, cur, n);
            && (cur.ret.Live? ==> c.ret == cur.ret)
            && (cur.cont.Live? ==> c.cont == cur.cont)
            && (cur.brk.Live? ==> c.brk == cur.brk)
    decreases |layers|
  {
    if layers != [] {
      var st := ExecOps(w, layers[0].ops, Open(cur.fin), n);
      ExitSticks(w, layers[1..], Applied(cur, CloseLayer(st)), n);
    }
  }

  lemma {:induction false} InertOps(w: World, ops: seq<Op>, st: LayerState, n: nat)
    requires !st.Active?
    ensures ExecOps(w, ops, st, n) == st
    decreases |ops|
  {
    if ops != [] {
      InertOps(w, ops[1..], st, n);
    }
  }

  /* Once the finish channel is erased the remaining layers are inert. */
  lemma {:induction false} InertLayers(w: World, layers: seq<Layer>, cur: Control, n: nat)
    requires cur.fin.Erased?
    ensures RunLayers(w, layers, cur, n) == cur
    decreases |layers|
  {
    if layers != [] {
      InertOps(w, layers[0].ops, Inert, n);
      assert Applied(cur, ERASED) == cur;
      InertLayers(w, layers[1..], cur, n);
    }
  }

  // The first layer is entered half way, in state `st`.
  function RunFrom(w: World, layers: seq<Layer>, cur: Control, st: LayerState, n: nat): Control
    requires layers != []
  {
    RunLayers(w, layers[1..], Applied(cur, CloseLayer(ExecOps(w, layers[0].ops, st, n))), n)
  }

  lemma PrependRuns(w: World, op: Op, layers: seq<Layer>, cur: Control, st: LayerState, n: nat)
    requires layers != []
    ensures RunFrom(w, Prepend(op, layers), cur, st, n) == RunFrom(w, layers, cur, ExecOp(w, op, st, n), n)
  {
    var ops := [op] + layers[0].ops;
    assert ops[1..] == layers[0].ops;
    assert Prepend(op, layers)[1..] == layers[1..];
  }

  lemma SingleOp(w: World, op: Op, st: LayerState, n: nat)
    ensures ExecOps(w, [op], st, n) == ExecOp(w, op, st, n)
  {
    assert [op][1..] == [];
  }

  predicate Sent(st: LayerState, o: Outcome) {
    st.Active?
    && match o
       case Finish(_) => false
       case Ret(v) => st.ret == Some(Live(v))
       case Brk(s) => st.ret.None? && st.cont.None? && st.fin.None? && st.brk == Some(Live(Good(s)))
       case Cont(s) => st.ret.None? && st.brk.None? && st.fin.None? && st.cont == Some(Live(Good(s)))
  }

  /* First write wins: what was sent survives the rest of its layer. */
  lemma {:induction false} SentStays(w: World, ops: seq<Op>, st: LayerState, n: nat)
    requires st.Active?
    ensures var st' := ExecOps(w, ops, st, n);
            && st'.Active?
            && (st.ret.Some? ==> st'.ret == st.ret) && (st.cont.Some? ==> st'.cont == st.cont)
            && (st.brk.Some? ==> st'.brk == st.brk) && (st.fin.Some? ==> st'.fin == st.fin)
    decreases |ops|
  {
    if ops != [] {
      SentStays(w, ops[1..], ExecOp(w, ops[0], st, n), n);
    }
  }

  /* Statements that can only fall through send nothing on the exit channels. */
  lemma {:induction false} PostCloseSends(w: World, b: seq<Stmt>, st: LayerState, n: nat)
    requires AllValidPostExit(b) && st.Active?
    ensures var st' := ExecOps(w, LowerStatements(b, NoTail)[0].ops, st, n);
            && st'.Active?
            && OrErased(st'.ret) == OrErased(st.ret) && OrErased(st'.cont) == OrErased(st.cont)
            && OrErased(st'.brk) == OrErased(st.brk)
    decreases |b|
  {
    if b != [] {
      var op := LowerStatement(b[0]);
      var rest := LowerStatements(b[1..], NoTail);
      assert ValidPostExit(b[0]);
      if IsCompound(b[0]) {
        assert LowerStatements(b, NoTail)[0].ops == [op];
        SingleOp(w, op, st, n);
        PostCloseBranch(w, b[0], st, n);
      } else {
        assert AllValidPostExit(b[1..]) by {
          forall i | 0 <= i < |b[1..]| ensures ValidPostExit(b[1..][i]) {
            assert b[1..][i] == b[i + 1];
          }
        }
        PostCloseSends(w, b[1..], ExecOp(w, op, st, n), n);
        assert ([op] + rest[0].ops)[1..] == rest[0].ops;
      }
    }
  }

  lemma PostCloseBranch(w: World, stmt: Stmt, st: LayerState, n: nat)
    requires IsCompound(stmt) && ValidPostExit(stmt) && st.Active?
    ensures var st' := ExecOp(w, LowerStatement(stmt), st, n);
            && st'.Active?
            && OrErased(st'.ret) == OrErased(st.ret) && OrErased(st'.cont) == OrErased(st.cont)
            && OrErased(st'.brk) == OrErased(st.brk)
  {
    hide RunFlow, RunAgent, EvalChan, LowerBody;
    assert StmtExits(stmt) == {Fallthrough};
  }

  // Assignments and expressions send nothing.
  lemma {:induction false} StraightLineKeeps(w: World, b: seq<Stmt>, st: LayerState, n: nat)
    requires StraightLine(b) && st.Active?
    ensures |LowerStatements(b, NoTail)| == 1
    ensures var st' := ExecOps(w, LowerStatements(b, NoTail)[0].ops, st, n);
            st'.Active? && st' == Active(st'.env, st.ret, st.cont, st.brk, st.fin)
    decreases |b|
  {
    if b != [] {
      assert StraightLine(b[1..]) by {
        forall i | 0 <= i < |b[1..]| ensures !IsCompound(b[1..][i]) && !IsJump(b[1..][i]) {
          assert b[1..][i] == b[i + 1];
        }
      }
      var op := LowerStatement(b[0]);
      var rest := LowerStatements(b[1..], NoTail);
      StraightLineKeeps(w, b[1..], ExecOp(w, op, st, n), n);
      assert ([op] + rest[0].ops)[1..] == rest[0].ops;
    }
  }

  /* A jump: its layer sends the outcome. What follows in its list is cut off, or
     reaches only channels that are. */
  lemma JumpSim(w: World, b: seq<Stmt>, o: Outcome, exits: Exits, turn: bool, cur: Control, st: LayerState, n: nat)
    requires cur.ret.Erased? && cur.cont.Erased? && cur.brk.Erased?
    requires Sent(st, o) && ExitOf(o) in exits
    requires o.Cont? ==> StraightLine(b) || (AllValidPostExit(b) && {Returns, Breaks} !! exits)
    requires o.Brk? ==> StraightLine(b) || (AllValidPostExit(b) && SparesBreak(exits, turn))
    ensures Shows(o, Shortcut(RunFrom(w, LowerStatements(b, NoTail), cur, st, n), exits),
                  if StraightLine(b) then Clean else Murky, !StraightLine(b), turn)
  {
    var layers := LowerStatements(b, NoTail);
    var st' := ExecOps(w, layers[0].ops, st, n);
    var cur' := Applied(cur, CloseLayer(st'));
    SentStays(w, layers[0].ops, st, n);
    ExitSticks(w, layers[1..], cur', n);
    if !o.Ret? {
      if StraightLine(b) {
        StraightLineKeeps(w, b, st, n);
        InertLayers(w, layers[1..], cur', n);
      } else {
        PostCloseSends(w, b, st, n);
      }
    }
  }

  lemma {:induction false} EvalDecided(e: Expr, env: Env)
    requires NoPending(env)
    ensures !EvalChan(e, env).Pending?
    decreases e
  {
    match e
    case Dynamic(_, captures) => EvalsDecided(captures, env);
    case _ =>
  }

  lemma {:induction false} EvalsDecided(es: seq<Expr>, env: Env)
    requires NoPending(env)
    ensures !EvalChans(es, env).Pending?
    decreases es
  {
    if es != [] {
      EvalDecided(es[0], env);
      EvalsDecided(es[1..], env);
    }
  }

  lemma {:induction false} WritesDecided(targets: seq<Name>, c: Chan<Value>, env: Env)
    requires NoPending(env) && !c.Pending?
    ensures NoPending(WriteAll(targets, c, env))
    decreases |targets|
  {
    if targets != [] {
      WritesDecided(targets[1..], c, env.Set(targets[0], c));
    }
  }

  // No return, no break; a continue that is out keeps its bundle.
  predicate Quiet(c: Control, cont: Chan<Env>) {
    && c.ret.Erased? && c.brk.Erased? && !c.cont.Pending? && (cont.Live? ==> c.cont == cont)
    && Complete(c.fin)
  }

  /* Harmless statements on a decided bundle neither leave nor stall. */
  lemma {:induction false} HarmlessSim(w: World, b: seq<Stmt>, tail: Tail, cur: Control, st: LayerState, n: nat)
    requires Harmless(b) && !tail.ReturnTail? && (HasCloser(b) ==> tail.NoTail?)
    requires cur.ret.Erased? && cur.brk.Erased? && !cur.cont.Pending?
    requires st.Active? && st == Active(st.env, None, None, None, None) && NoPending(st.env)
    ensures Quiet(RunFrom(w, LowerStatements(b, tail), cur, st, n), cur.cont)
    decreases b, 1
  {
    var layers := LowerStatements(b, tail);
    if b == [] {
      assert layers[1..] == [] && (TailOps(tail) == [] || TailOps(tail)[1..] == []);
      assert ExecOps(w, TailOps(tail), st, n) == if tail.NoTail? then st else ExecOp(w, SendFinish, st, n);
    } else {
      var rest := LowerStatements(b[1..], tail);
      var op := LowerStatement(b[0]);
      if b[0].If? {
        assert layers[0].ops == [op] && layers[1..] == rest;
        SingleOp(w, op, st, n);
        HarmlessBranch(w, b[0], st, n);
        var cur' := Applied(cur, CloseLayer(ExecOp(w, op, st, n)));
        if cur'.fin.Erased? {
          InertLayers(w, rest, cur', n);
        } else {
          HarmlessSim(w, b[1..], tail, cur', Open(cur'.fin), n);
        }
      } else {
        PrependRuns(w, op, rest, cur, st, n);
        if b[0].Continue? {
          ContinueSim(w, b[1..], cur, ExecOp(w, op, st, n), st.env, n);
        } else {
          HarmlessStep(w, b[0], st, n);
          HarmlessSim(w, b[1..], tail, cur, ExecOp(w, op, st, n), n);
        }
      }
    }
  }

  // What follows a continue on a leaked bundle.
  lemma ContinueSim(w: World, b: seq<Stmt>, cur: Control, st: LayerState, env: Env, n: nat)
    requires StraightLine(b) && cur.ret.Erased? && cur.brk.Erased? && !cur.cont.Pending?
    requires st == Active(DANGLING, None, Some(Live(env)), None, None)
    ensures Quiet(RunFrom(w, LowerStatements(b, NoTail), cur, st, n), cur.cont)
  {
    StraightLineKeeps(w, b, st, n);
    assert LowerStatements(b, NoTail)[1..] == [];
  }

  lemma HarmlessStep(w: World, stmt: Stmt, st: LayerState, n: nat)
    requires HarmlessStmt(stmt) && !stmt.If?
    requires st.Active? && st == Active(st.env, None, None, None, None) && NoPending(st.env)
    ensures var st' := ExecOp(w, LowerStatement(stmt), st, n);
            st'.Active? && st' == Active(st'.env, None, None, None, None) && NoPending(st'.env)
  {
    match stmt
    case Assign(targets, value) =>
      EvalDecided(value, st.env);
      WritesDecided(targets, EvalChan(value, st.env), st.env);
    case AugAssign(target, _, operand) => EvalsDecided([Var(target), operand], st.env);
    case _ =>
  }

  lemma {:induction false} HarmlessBranch(w: World, stmt: Stmt, st: LayerState, n: nat)
    requires stmt.If? && HarmlessStmt(stmt)
    requires st.Active? && st == Active(st.env, None, None, None, None) && NoPending(st.env)
    ensures var k := CloseLayer(ExecOp(w, LowerStatement(stmt), st, n));
            Quiet(k, Erased)
    decreases stmt, 0
  {
    EvalDecided(stmt.test, st.env);
    var test := EvalChan(stmt.test, st.env);
    if test.Live? {
      var taken := if w.truthy(test.v) then stmt.thenBody else stmt.elseBody;
      var cur := Control(Erased, Erased, Erased, Live(st.env));
      HarmlessSim(w, taken, BodyTail(taken), cur, Open(cur.fin), n);
      assert RunLayers(w, LowerBody(taken).layers, cur, n)
          == RunFrom(w, LowerStatements(taken, BodyTail(taken)), cur, Open(cur.fin), n);
    }
  }

  /* A conditional or loop that exits: later layers are inert, harmless, or reach
     only channels that are cut. */
  lemma ExitSim(w: World, rest: seq<Stmt>, tail: Tail, exits: Exits, turn: bool, o: Outcome,
                res: Residue, stalls: bool, cur: Control, k: Control, n: nat)
    requires cur.ret.Erased? && cur.cont.Erased? && cur.brk.Erased?
    requires Shows(o, k, res, stalls, false) && !o.Finish? && ExitOf(o) in exits
    requires o.Cont? ==> !tail.ReturnTail? && (HasCloser(rest) ==> tail.NoTail?)
    requires o.Cont? && Onward(res, rest).Murky? ==> {Returns, Breaks} !! exits
    requires o.Brk? && stalls ==> SparesBreak(exits, turn)
    ensures Shows(o, Shortcut(RunLayers(w, LowerStatements(rest, tail), Applied(cur, k), n), exits),
                  Onward(res, rest), stalls, turn)
  {
    var cur' := Applied(cur, k);
    var layers := LowerStatements(rest, tail);
    ExitSticks(w, layers, cur', n);
    if !o.Ret? {
      if cur'.fin.Erased? {
        InertLayers(w, layers, cur', n);
      } else if o.Cont? && Onward(res, rest).Decided? {
        HarmlessSim(w, rest, tail, cur', Open(cur'.fin), n);
      }
    }
  }

  /* ---- The simulation ---- */

  // The outcome once an open list has been closed by its tail.
  function Closed(w: World, o: Outcome, tail: Tail): Outcome {
    if o.Finish? && tail.ReturnTail? then Ret(w.none) else o
  }

  lemma EmptySim(w: World, tail: Tail, exits: Exits, turn: bool, s: Store, cur: Control, st: LayerState, n: nat)
    requires !tail.NoTail? && cur.ret.Erased? && cur.cont.Erased? && cur.brk.Erased?
    requires st == Active(Good(s), None, None, None, None) && ExitOf(Closed(w, Finish(s), tail)) in exits
    ensures Shows(Closed(w, Finish(s), tail), Shortcut(RunFrom(w, LowerStatements([], tail), cur, st, n), exits),
                  Clean, false, turn)
  {
    var layers := LowerStatements([], tail);
    assert TailOps(tail)[1..] == [] && layers[1..] == [];
    assert ExecOps(w, TailOps(tail), st, n) == ExecOp(w, TailOps(tail)[0], st, n);
  }

  lemma FinishShows(o: Outcome, cur: Control, k: Control, res: Residue, stalls: bool, turn: bool)
    requires o.Finish? && Shows(o, k, res, stalls, turn) && cur.ret.Erased? && cur.cont.Erased? && cur.brk.Erased?
    ensures Applied(cur, k) == Control(Erased, Erased, Erased, Live(Good(o.store)))
  {
  }

  // The run of a list as far as its first statement.
  lemma RunFirst(w: World, b: seq<Stmt>, s: Store, n: nat)
    requires b != [] && RunBody(w, b, s, n).Done?
    ensures RunStmt(w, b[0], s, n).Done?
    ensures var o := RunStmt(w, b[0], s, n).outcome;
            RunBody(w, b, s, n) == if o.Finish? then RunBody(w, b[1..], o.store, n) else Done(o)
  {
  }

  lemma {:induction false} BodySim(w: World, b: seq<Stmt>, tail: Tail, exits: Exits, turn: bool,
                                   s: Store, cur: Control, st: LayerState, n: nat)
    requires Orderly(b, exits, turn) && RunBody(w, b, s, n).Done?
    requires tail.NoTail? <==> HasCloser(b)
    requires tail.ReturnTail? ==> !RunBody(w, b, s, n).outcome.Cont?
    requires ExitOf(Closed(w, RunBody(w, b, s, n).outcome, tail)) in exits
    requires cur.ret.Erased? && cur.cont.Erased? && cur.brk.Erased?
    requires st == Active(Good(s), None, None, None, None)
    ensures Shows(Closed(w, RunBody(w, b, s, n).outcome, tail),
                  Shortcut(RunFrom(w, LowerStatements(b, tail), cur, st, n), exits),
                  ListResidue(b), ListStalls(b), turn)
    decreases n, b, 3
  {
    hide Shows, CloseLayer, Masked, ExecOp, TailOps, ContinueResidue, OrderlyStmt, Stalls, Shortcut, RunBody, RunStmt,
         StmtExits;
    var layers := LowerStatements(b, tail);
    if b == [] {
      RunNothing(w, s, n);
      EmptySim(w, tail, exits, turn, s, cur, st, n);
    } else {
      var rest := LowerStatements(b[1..], tail);
      var op := LowerStatement(b[0]);
      RunFirst(w, b, s, n);
      var o := RunStmt(w, b[0], s, n).outcome;
      if IsCompound(b[0]) {
        assert layers[0].ops == [op] && layers[1..] == rest;
        SingleOp(w, op, st, n);
        CompoundSim(w, b[0], s, st, n);
        StmtExitsSound(w, b[0], s, n);
        var k := CloseLayer(ExecOp(w, op, st, n));
        var cur' := Applied(cur, k);
        assert RunFrom(w, layers, cur, st, n) == RunLayers(w, rest, cur', n);
        if o.Finish? {
          FinishShows(o, cur, k, ContinueResidue(b[0]), Stalls(b[0]), false);
          BodySim(w, b[1..], tail, exits, turn, o.store, cur', Open(cur'.fin), n);
          ShowsMore(Closed(w, RunBody(w, b, s, n).outcome, tail),
                    Shortcut(RunFrom(w, rest, cur', Open(cur'.fin), n), exits),
                    ListResidue(b[1..]), ListStalls(b[1..]), turn, ListResidue(b), ListStalls(b));
        } else {
          ExitSim(w, b[1..], tail, exits, turn, o, ContinueResidue(b[0]), Stalls(b[0]), cur, k, n);
          ShowsMore(o, Shortcut(RunLayers(w, rest, cur', n), exits),
                    Onward(ContinueResidue(b[0]), b[1..]), Stalls(b[0]), turn, ListResidue(b), ListStalls(b));
        }
      } else {
        PrependRuns(w, op, rest, cur, st, n);
        SimpleSim(w, b[0], s, st, n);
        if o.Finish? {
          SimpleFinishes(w, b[0], s, n);
          BodySim(w, b[1..], tail, exits, turn, o.store, cur, ExecOp(w, op, st, n), n);
        } else {
          JumpRuns(w, b[0], s, n);
          JumpSim(w, b[1..], o, exits, turn, cur, ExecOp(w, op, st, n), n);
          ShowsMore(o, Shortcut(RunFrom(w, rest, cur, ExecOp(w, op, st, n), n), exits),
                    if StraightLine(b[1..]) then Clean else Murky, !StraightLine(b[1..]),
                    turn, ListResidue(b), ListStalls(b));
        }
      }
    }
  }

  lemma RunNothing(w: World, s: Store, n: nat)
    ensures RunBody(w, [], s, n) == Done(Finish(s))
  {
  }

  lemma SimpleFinishes(w: World, stmt: Stmt, s: Store, n: nat)
    requires !IsCompound(stmt) && RunStmt(w, stmt, s, n).Done? && RunStmt(w, stmt, s, n).outcome.Finish?
    ensures !IsJump(stmt)
  {
  }

  lemma JumpRuns(w: World, stmt: Stmt, s: Store, n: nat)
    requires !IsCompound(stmt) && RunStmt(w, stmt, s, n).Done? && !RunStmt(w, stmt, s, n).outcome.Finish?
    ensures var o := RunStmt(w, stmt, s, n).outcome;
            (o.Ret? <==> stmt.Return?) && (o.Brk? <==> stmt.Break?) && (o.Cont? <==> stmt.Continue?)
  {
  }

  lemma {:induction false} SimpleSim(w: World, stmt: Stmt, s: Store, st: LayerState, n: nat)
    requires !IsCompound(stmt) && RunStmt(w, stmt, s, n).Done?
    requires st == Active(Good(s), None, None, None, None)
    ensures var o := RunStmt(w, stmt, s, n).outcome;
            var st' := ExecOp(w, LowerStatement(stmt), st, n);
            if o.Finish? then st' == Active(Good(o.store), None, None, None, None) else Sent(st', o)
  {
    match stmt
    case Assign(targets, value) =>
      EvalGood(value, s);
      WriteAllGood(targets, Eval(value, s).value, s);
    case AugAssign(target, op, operand) =>
      EvalAllGood([Var(target), operand], s);
      var vs := EvalAll([Var(target), operand], s).value;
      GoodSet(s, target, op(vs[0], vs[1]).value);
    case Return(result) => if result.Some? { EvalGood(result.value, s); }
    case _ =>
  }

  lemma {:induction false} CompoundSim(w: World, stmt: Stmt, s: Store, st: LayerState, n: nat)
    requires IsCompound(stmt) && OrderlyStmt(stmt) && RunStmt(w, stmt, s, n).Done?
    requires st == Active(Good(s), None, None, None, None)
    ensures Shows(RunStmt(w, stmt, s, n).outcome, CloseLayer(ExecOp(w, LowerStatement(stmt), st, n)),
                  ContinueResidue(stmt), Stalls(stmt), false)
    decreases n, stmt, 2
  {
    hide Shows, Shortcut, RunFlow, RunAgent, RunBody, RunLoop, CloseLayer, Forward, LowerBody, StmtExits,
         BodyResidue, BodyStalls, OrderlyBody;
    StmtExitsSound(w, stmt, s, n);
    var o := RunStmt(w, stmt, s, n).outcome;
    match stmt
    case If(test, thenBody, elseBody) =>
      EvalGood(test, s);
      var taken := if w.truthy(Eval(test, s).value) then thenBody else elseBody;
      var k := RunFlow(w, LowerBody(taken), Live(Good(s)), n);
      FlowSim(w, taken, false, s, n);
      ShowsMore(o, k, BodyResidue(taken), BodyStalls(taken), false, ContinueResidue(stmt), Stalls(stmt));
      ShortcutKeeps(o, k, ContinueResidue(stmt), Stalls(stmt), false, StmtExits(stmt));
      ForwardCloses(st, Shortcut(k, StmtExits(stmt)));
    case For(_, iter, _, _) =>
      EvalGood(iter, s);
      var it := w.iter(Eval(iter, s).value);
      var k := RunAgent(w, LowerLoop(stmt), Live(Good(s)), AsChan(it), n);
      LoopSim(w, stmt, it, s, n);
      ShortcutKeeps(o, k, ContinueResidue(stmt), Stalls(stmt), false, StmtExits(stmt));
      ForwardCloses(st, Shortcut(k, StmtExits(stmt)));
    case While(_, _, _) =>
      var k := RunAgent(w, LowerLoop(stmt), Live(Good(s)), Erased, n);
      LoopSim(w, stmt, None, s, n);
      ShortcutKeeps(o, k, ContinueResidue(stmt), Stalls(stmt), false, StmtExits(stmt));
      ForwardCloses(st, Shortcut(k, StmtExits(stmt)));
  }

  // A branch or a loop is the last of its layer: its channels are the layer's.
  lemma ForwardCloses(st: LayerState, k: Control)
    requires st.Active? && st.ret.None? && st.cont.None? && st.brk.None? && st.fin.None?
    ensures CloseLayer(Forward(st, k)) == k
  {
  }

  // What a body leaves once its own exits have cut the rest.
  predicate FlowStalls(b: seq<Stmt>, turn: bool) {
    if turn then TurnStalls(b) else BodyStalls(b)
  }

  lemma {:induction false} FlowSim(w: World, b: seq<Stmt>, turn: bool, s: Store, n: nat)
    requires OrderlyBody(b, turn) && RunBody(w, b, s, n).Done?
    ensures Shows(RunBody(w, b, s, n).outcome, RunFlow(w, LowerBody(b), Live(Good(s)), n),
                  BodyResidue(b), FlowStalls(b, turn), turn)
    decreases n, b, 4
  {
    var cur := Control(Erased, Erased, Erased, Live(Good(s)));
    var o := RunBody(w, b, s, n).outcome;
    BodyExitsSound(w, b, s, n);
    BodySim(w, b, BodyTail(b), BodyExits(b), turn, s, cur, Open(cur.fin), n);
    CutShows(o, RunLayers(w, LowerBody(b).layers, cur, n), b, turn);
  }

  // The body's own exits cut what its residue and stalls leave open.
  lemma CutShows(o: Outcome, c: Control, b: seq<Stmt>, turn: bool)
    requires Shows(o, Shortcut(c, BodyExits(b)), ListResidue(b), ListStalls(b), turn)
    ensures Shows(o, Shortcut(c, BodyExits(b)), BodyResidue(b), FlowStalls(b, turn), turn)
  {
  }

  lemma {:induction false} LoopSim(w: World, stmt: Stmt, it: Option<Value>, s: Store, n: nat)
    requires IsLoop(stmt) && OrderlyStmt(stmt) && RunLoop(w, stmt, it, s, n).Done?
    ensures Shows(RunLoop(w, stmt, it, s, n).outcome, RunAgent(w, LowerLoop(stmt), Live(Good(s)), AsChan(it), n),
                  ContinueResidue(stmt), Stalls(stmt), false)
    decreases n, stmt, 1
  {
    hide Shows, RunFlow, RunBody, Route, Rejoin, TurnHeader, LowerBody, BodyExits, StmtExits, BodyResidue,
         BodyStalls, TurnStalls, OrderlyBody;
    var agent := LowerLoop(stmt);
    var o := RunLoop(w, stmt, it, s, n).outcome;
    LoopExitsSound(w, stmt, it, s, n);
    HeaderSim(w, stmt, it, s);
    var leak := LeakOf(stmt.orelse);
    match Advance(w, stmt, it, s)
    case Exhausted(s') =>
      FlowSim(w, stmt.orelse, false, s', n - 1);
      var c := RunFlow(w, agent.orelse, Live(Good(s')), n - 1);
      ShowsMore(o, c, BodyResidue(stmt.orelse), BodyStalls(stmt.orelse), false, leak, BodyStalls(stmt.orelse));
      CutElse(w, stmt, o, c);
    case Enter(s', it') =>
      FlowSim(w, stmt.body, true, s', n - 1);
      var first := RunBody(w, stmt.body, s', n - 1).outcome;
      var c := RunFlow(w, agent.body, Live(Good(s')), n - 1);
      var r := Route(c);
      var rec := Shortcut(RunAgent(w, agent, r.again, AsChan(it'), n - 1), agent.exits);
      RouteSim(first, c, BodyResidue(stmt.body), TurnStalls(stmt.body));
      if first.Finish? || first.Cont? {
        var again := RunAgent(w, agent, r.again, AsChan(it'), n - 1);
        LoopSim(w, stmt, it', first.store, n - 1);
        ShortcutKeeps(o, again, ContinueResidue(stmt), Stalls(stmt), false, StmtExits(stmt));
        ShowsMore(o, rec, ContinueResidue(stmt), Stalls(stmt), false, leak, Stalls(stmt));
      } else if first.Brk? {
        assert rec == Shortcut(if r.again.Erased? then ERASED else WAITING, agent.exits);
      }
      RejoinSim(first, o, r, rec, leak, Stalls(stmt));
      CutElse(w, stmt, o, Rejoin(r, rec));
  }

  lemma CutElse(w: World, stmt: Stmt, o: Outcome, c: Control)
    requires IsLoop(stmt) && Shows(o, c, LeakOf(stmt.orelse), BodyStalls(stmt.orelse), false)
    requires ExitOf(o) in StmtExits(stmt)
    ensures Shows(o, Shortcut(c, StmtExits(stmt)), ContinueResidue(stmt), Stalls(stmt), false)
  {
    assert ContinueResidue(stmt) == ElseResidue(stmt, stmt.orelse) && Stalls(stmt) == BodyStalls(stmt.orelse);
  }

  /* Where a turn goes: again, or out by break. A return hands its value out, and
     what else the turn shows may go round again (going_round.dfy). */
  predicate Turned(first: Outcome, r: Routed, stalls: bool) {
    match first
    case Finish(s) => r == Routed(Erased, Erased, Live(Good(s)))
    case Cont(s) => r == Routed(Erased, Erased, Live(Good(s)))
    case Brk(s) => r.ret.Erased? && r.brk == Live(Good(s)) && (r.again.Erased? || (stalls && r.again.Pending?))
    case Ret(v) => r.ret == Live(v)
  }

  lemma RouteSim(first: Outcome, c: Control, res: Residue, stalls: bool)
    requires Shows(first, c, res, stalls, true)
    ensures Turned(first, Route(c), stalls)
    ensures first.Finish? || first.Cont? ==> Route(c).again == Live(Good(first.store))
    ensures first.Brk? ==> Route(c).again.Erased? || (stalls && Route(c).again.Pending?)
  {
  }

  // The loop's outcome o, from that of one turn and of the turns after it.
  lemma RejoinSim(first: Outcome, o: Outcome, r: Routed, rec: Control, res: Residue, stalls: bool)
    requires exists turnStalls :: Turned(first, r, turnStalls)
    requires first.Ret? ==> o == first
    requires first.Brk? ==> o == Finish(first.store) && rec.ret.Erased? && rec.cont.Erased? && rec.brk.Erased?
    requires first.Finish? || first.Cont? ==> Shows(o, rec, res, stalls, false)
    requires o.Cont? ==> res.Decided? || res.Murky?
    ensures Shows(o, Rejoin(r, rec), res, stalls, false)
  {
  }

  lemma HeaderSim(w: World, stmt: Stmt, it: Option<Value>, s: Store)
    requires IsLoop(stmt) && !Advance(w, stmt, it, s).Stuck?
    ensures var h := TurnHeader(w, LowerLoop(stmt).step, Good(s), AsChan(it));
            match Advance(w, stmt, it, s)
            case Enter(s', it') => h == Header(Live(true), Good(s'), AsChan(it'))
            case Exhausted(s') => h.test == Live(false) && h.env == Good(s')
  {
    if stmt.While? {
      EvalGood(stmt.test, s);
    } else if w.next(it.value).Some? {
      GoodSet(s, stmt.target, w.next(it.value).value.0);
    }
  }

  /* ---- A list as far as some statement of it ---- */

  lemma {:induction false} RunPrefix(w: World, pre: seq<Stmt>, rest: seq<Stmt>, s: Store, n: nat)
    requires RunBody(w, pre, s, n).Done? && RunBody(w, pre, s, n).outcome.Finish?
    ensures RunBody(w, pre + rest, s, n) == RunBody(w, rest, RunBody(w, pre, s, n).outcome.store, n)
    decreases |pre|
  {
    if pre == [] {
      assert pre + rest == rest;
    } else {
      assert (pre + rest)[1..] == pre[1..] + rest;
      RunPrefix(w, pre[1..], rest, RunStmt(w, pre[0], s, n).outcome.store, n);
    }
  }

  /* After statements that finish, a list's layers stand where those of the rest
     begin. */
  lemma {:induction false} PrefixSim(w: World, pre: seq<Stmt>, rest: seq<Stmt>, tail: Tail,
                                     s: Store, cur: Control, st: LayerState, n: nat) returns (cur': Control)
    requires AllOrderly(pre) && RunBody(w, pre, s, n).Done? && RunBody(w, pre, s, n).outcome.Finish?
    requires cur.ret.Erased? && cur.cont.Erased? && cur.brk.Erased?
    requires st == Active(Good(s), None, None, None, None)
    ensures cur'.ret.Erased? && cur'.cont.Erased? && cur'.brk.Erased?
    ensures RunFrom(w, LowerStatements(pre + rest, tail), cur, st, n)
         == RunFrom(w, LowerStatements(rest, tail), cur',
                    Active(Good(RunBody(w, pre, s, n).outcome.store), None, None, None, None), n)
    decreases |pre|
  {
    hide Shows, CloseLayer, Masked, ExecOp, OrderlyStmt, ContinueResidue, Stalls, RunStmt;
    if pre == [] {
      assert pre + rest == rest;
      cur' := cur;
    } else {
      var b := pre + rest;
      assert b[1..] == pre[1..] + rest && b[0] == pre[0];
      var op := LowerStatement(b[0]);
      var after := LowerStatements(b[1..], tail);
      RunFirst(w, pre, s, n);
      var o := RunStmt(w, b[0], s, n).outcome;
      assert AllOrderly(pre[1..]) by {
        assert forall i :: 0 <= i < |pre[1..]| ==> pre[1..][i] == pre[i + 1];
      }
      if IsCompound(b[0]) {
        assert LowerStatements(b, tail)[0].ops == [op] && LowerStatements(b, tail)[1..] == after;
        SingleOp(w, op, st, n);
        CompoundSim(w, b[0], s, st, n);
        var k := CloseLayer(ExecOp(w, op, st, n));
        FinishShows(o, cur, k, ContinueResidue(b[0]), Stalls(b[0]), false);
        var next := Applied(cur, k);
        cur' := PrefixSim(w, pre[1..], rest, tail, o.store, next, Open(next.fin), n);
      } else {
        PrependRuns(w, op, after, cur, st, n);
        SimpleSim(w, b[0], s, st, n);
        cur' := PrefixSim(w, pre[1..], rest, tail, o.store, cur, ExecOp(w, op, st, n), n);
      }
    }
  }

  // What straight code leaves in the registers, whatever they hold.
  function Moved(mid: seq<Stmt>, env: Env): Env
    requires StraightLine(mid)
    decreases |mid|
  {
    if mid == [] then env
    else
      assert !IsCompound(mid[0]) && !IsJump(mid[0]);
      assert StraightLine(mid[1..]) by {
        assert forall i :: 0 <= i < |mid[1..]| ==> mid[1..][i] == mid[i + 1];
      }
      Moved(mid[1..], match mid[0]
                      case Assign(targets, value) =>
                        if targets == [] then env else WriteAll(targets, EvalChan(value, env), env)
                      case AugAssign(target, op, operand) => env.Set(target, UpdateChan(target, op, operand, env))
                      case _ => env)
  }

  lemma {:induction false} StraightPrefix(w: World, mid: seq<Stmt>, rest: seq<Stmt>, tail: Tail,
                                          cur: Control, st: LayerState, n: nat)
    requires StraightLine(mid) && st.Active?
    ensures RunFrom(w, LowerStatements(mid + rest, tail), cur, st, n)
         == RunFrom(w, LowerStatements(rest, tail), cur, st.(env := Moved(mid, st.env)), n)
    decreases |mid|
  {
    if mid == [] {
      assert mid + rest == rest;
    } else {
      var b := mid + rest;
      assert b[1..] == mid[1..] + rest && b[0] == mid[0];
      assert !IsCompound(mid[0]) && !IsJump(mid[0]);
      assert StraightLine(mid[1..]) by {
        assert forall i :: 0 <= i < |mid[1..]| ==> mid[1..][i] == mid[i + 1];
      }
      var st' := ExecOp(w, LowerStatement(b[0]), st, n);
      PrependRuns(w, LowerStatement(b[0]), LowerStatements(b[1..], tail), cur, st, n);
      StraightPrefix(w, mid[1..], rest, tail, cur, st', n);
    }
  }

  /* ---- Main results ---- */

  /** Lowering preserves meaning: whenever the source run of an orderly body ends,
      the lowered flow's first live channel is that outcome. */
  lemma LoweringPreservesMeaning(w: World, b: seq<Stmt>, s: Store, n: nat)
    requires OrderlyBody(b, false) && RunBody(w, b, s, n).Done?
    ensures FirstLive(RunFlow(w, LowerBody(b), Live(Good(s)), n)) == ReadingOf(RunBody(w, b, s, n).outcome)
  {
    FlowSim(w, b, false, s, n);
  }

  /** The same for a whole function, whose body cannot break or continue: its
      return channel carries the value Python returns, and None at the end. */
  lemma CallPreservesMeaning(w: World, b: seq<Stmt>, s: Store, n: nat)
    requires OrderlyFunction(b) && {Breaks, Continues} !! BodyExits(b)
    requires Call(w, b, s, n).Done?
    ensures Call(w, b, s, n).outcome.Ret?
    ensures RunFlow(w, LowerFunction(b), Live(Good(s)), n).ret == Live(Call(w, b, s, n).outcome.value)
  {
    BodyExitsSound(w, b, s, n);
    OpenBodyFallsThrough(b);
    var cur := Control(Erased, Erased, Erased, Live(Good(s)));
    BodySim(w, b, TailOf(b, FunctionExits(b)), FunctionExits(b), false, s, cur, Open(cur.fin), n);
  }

  /** What a loop does with a finished turn: one that finishes or continues recurs
      with its store, one that breaks leaves with its store, and one that returns
      hands out its value. */
  lemma TurnsPreserveMeaning(w: World, b: seq<Stmt>, s: Store, n: nat)
    requires OrderlyBody(b, true) && RunBody(w, b, s, n).Done?
    ensures Turned(RunBody(w, b, s, n).outcome, Route(RunFlow(w, LowerBody(b), Live(Good(s)), n)), TurnStalls(b))
  {
    FlowSim(w, b, true, s, n);
    RouteSim(RunBody(w, b, s, n).outcome, RunFlow(w, LowerBody(b), Live(Good(s)), n), BodyResidue(b), TurnStalls(b));
  }

  // The outcome's own channel holds its payload.
  predicate Carries(o: Outcome, c: Control) {
    match o
    case Finish(s) => c.fin == Live(Good(s))
    case Ret(v) => c.ret == Live(v)
    case Brk(s) => c.brk == Live(Good(s))
    case Cont(s) => c.cont == Live(Good(s))
  }

  /** No shortcut erases the live outcome of an orderly run: before the exits cut
      the other channels, its own holds the payload that is read afterwards. */
  lemma ShortcutsSpareTheOutcome(w: World, b: seq<Stmt>, s: Store, n: nat)
    requires OrderlyBody(b, false) && RunBody(w, b, s, n).Done?
    ensures var o := RunBody(w, b, s, n).outcome;
            var uncut := RunLayers(w, LowerBody(b).layers, Control(Erased, Erased, Erased, Live(Good(s))), n);
            Carries(o, uncut) && FirstLive(Shortcut(uncut, BodyExits(b))) == ReadingOf(o)
  {
    var cur := Control(Erased, Erased, Erased, Live(Good(s)));
    BodyExitsSound(w, b, s, n);
    BodySim(w, b, BodyTail(b), BodyExits(b), false, s, cur, Open(cur.fin), n);
  }
}
