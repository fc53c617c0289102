/** The variable-usage collectors of src/natsune/frontend/ir/nodes.py, proved to
    be a sound frame for the source semantics. */
module VariableUsage {
  import opened Options
  import opened Ir
  import opened Python

  datatype How = Read | Write
  type Usage = map<Name, How>

  // Record a usage; a write takes priority over a read.
  function Record(usage: Usage, x: Name, how: How): Usage {
    if how == Write || x !in usage then usage[x := how] else usage
  }

  function Merge(into: Usage, from: Usage): Usage {
    map x | x in into.Keys + from.Keys ::
      if x in from && (from[x] == Write || x !in into) then from[x] else into[x]
  }

  function CollectExpr(e: Expr, usage: Usage): Usage
    decreases e
  {
    match e
    case Const(_) => usage
    case Var(x) => Record(usage, x, Read)
    case Dynamic(_, captures) => CollectExprs(captures, usage)
  }

  function CollectExprs(es: seq<Expr>, usage: Usage): Usage
    decreases es
  {
    if es == [] then usage else CollectExprs(es[1..], CollectExpr(es[0], usage))
  }

  function CollectTargets(targets: seq<Name>, usage: Usage): Usage {
    if targets == [] then usage else CollectTargets(targets[1..], Record(usage, targets[0], Write))
  }

  // Targets first, then child expressions, then the nested bodies' own usage.
  function CollectStmt(st: Stmt, usage: Usage): Usage
    decreases st, 1
  {
    match st
    case Assign(targets, value) => CollectExpr(value, CollectTargets(targets, usage))
    case AugAssign(target, _, operand) => CollectExpr(operand, CollectTargets([target], usage))
    case ExprStmt(value) => CollectExpr(value, usage)
    case Return(result) => if result.Some? then CollectExpr(result.value, usage) else usage
    case Break => usage
    case Continue => usage
    case If(test, thenBody, elseBody) =>
      Merge(Merge(CollectExpr(test, usage), BodyUsage(thenBody)), BodyUsage(elseBody))
    case For(target, iter, body, orelse) =>
      Merge(Merge(CollectExpr(iter, CollectTargets([target], usage)), BodyUsage(body)), BodyUsage(orelse))
    case While(test, body, orelse) => Merge(Merge(CollectExpr(test, usage), BodyUsage(body)), BodyUsage(orelse))
  }

  function UsageFrom(b: seq<Stmt>, usage: Usage): Usage
    decreases b, 0
  {
    if b == [] then usage else UsageFrom(b[1..], CollectStmt(b[0], usage))
  }

  function BodyUsage(b: seq<Stmt>): Usage
    decreases b, 1
  {
    UsageFrom(b, map[])
  }

  /** analyze_ir_body's usage loop. */
  method AnalyzeUsage(b: seq<Stmt>) returns (usage: Usage)
    ensures usage == BodyUsage(b)
  {
    usage := map[];
    var i := 0;
    while i < |b|
      invariant 0 <= i <= |b|
      invariant UsageFrom(b, map[]) == UsageFrom(b[i..], usage)
    {
      assert b[i..][0] == b[i] && b[i..][1..] == b[i + 1..];
      usage := CollectStmt(b[i], usage);
      i := i + 1;
    }
  }

  /* ---- What the map says, independently of how it is collected ---- */

  predicate Written(usage: Usage, x: Name) {
    x in usage && usage[x] == Write
  }

  predicate InExpr(e: Expr, x: Name)
    decreases e
  {
    match e
    case Const(_) => false
    case Var(y) => x == y
    case Dynamic(_, captures) => InExprs(captures, x)
  }

  predicate InExprs(es: seq<Expr>, x: Name)
    decreases es
  {
    es != [] && (InExpr(es[0], x) || InExprs(es[1..], x))
  }

  // x is a target somewhere in the statement.
  predicate Assigns(st: Stmt, x: Name)
    decreases st
  {
    match st
    case Assign(targets, _) => x in targets
    case AugAssign(target, _, _) => x == target
    case If(_, thenBody, elseBody) => BodyAssigns(thenBody, x) || BodyAssigns(elseBody, x)
    case For(target, _, body, orelse) => x == target || BodyAssigns(body, x) || BodyAssigns(orelse, x)
    case While(_, body, orelse) => BodyAssigns(body, x) || BodyAssigns(orelse, x)
    case _ => false
  }

  predicate BodyAssigns(b: seq<Stmt>, x: Name)
    decreases b
  {
    b != [] && (Assigns(b[0], x) || BodyAssigns(b[1..], x))
  }

  // x occurs in some expression of the statement.
  predicate Reads(st: Stmt, x: Name)
    decreases st
  {
    match st
    case Assign(_, value) => InExpr(value, x)
    case AugAssign(_, _, operand) => InExpr(operand, x)
    case ExprStmt(value) => InExpr(value, x)
    case Return(result) => result.Some? && InExpr(result.value, x)
    case If(test, thenBody, elseBody) => InExpr(test, x) || BodyReads(thenBody, x) || BodyReads(elseBody, x)
    case For(_, iter, body, orelse) => InExpr(iter, x) || BodyReads(body, x) || BodyReads(orelse, x)
    case While(test, body, orelse) => InExpr(test, x) || BodyReads(body, x) || BodyReads(orelse, x)
    case _ => false
  }

  predicate BodyReads(b: seq<Stmt>, x: Name)
    decreases b
  {
    b != [] && (Reads(b[0], x) || BodyReads(b[1..], x))
  }

  lemma {:induction false} ExprUsage(e: Expr, usage: Usage, x: Name)
    ensures x in CollectExpr(e, usage) <==> x in usage || InExpr(e, x)
    ensures Written(CollectExpr(e, usage), x) <==> Written(usage, x)
    decreases e
  {
    if e.Dynamic? {
      ExprsUsage(e.captures, usage, x);
    }
  }

  lemma {:induction false} ExprsUsage(es: seq<Expr>, usage: Usage, x: Name)
    ensures x in CollectExprs(es, usage) <==> x in usage || InExprs(es, x)
    ensures Written(CollectExprs(es, usage), x) <==> Written(usage, x)
    decreases es
  {
    if es != [] {
      ExprUsage(es[0], usage, x);
      ExprsUsage(es[1..], CollectExpr(es[0], usage), x);
    }
  }

  lemma {:induction false} TargetsUsage(targets: seq<Name>, usage: Usage, x: Name)
    ensures x in CollectTargets(targets, usage) <==> x in usage || x in targets
    ensures Written(CollectTargets(targets, usage), x) <==> Written(usage, x) || x in targets
    decreases |targets|
  {
    if targets != [] {
      TargetsUsage(targets[1..], Record(usage, targets[0], Write), x);
    }
  }

  lemma {:induction false} StmtUsage(st: Stmt, usage: Usage, x: Name)
    ensures x in CollectStmt(st, usage) <==> x in usage || Assigns(st, x) || Reads(st, x)
    ensures Written(CollectStmt(st, usage), x) <==> Written(usage, x) || Assigns(st, x)
    decreases st, 1
  {
    match st
    case Assign(targets, value) =>
      TargetsUsage(targets, usage, x);
      ExprUsage(value, CollectTargets(targets, usage), x);
    case AugAssign(target, _, operand) =>
      TargetsUsage([target], usage, x);
      ExprUsage(operand, CollectTargets([target], usage), x);
    case ExprStmt(value) => ExprUsage(value, usage, x);
    case Return(result) => if result.Some? { ExprUsage(result.value, usage, x); }
    case Break =>
    case Continue =>
    case If(test, thenBody, elseBody) =>
      ExprUsage(test, usage, x);
      UsageFromExactly(thenBody, map[], x);
      UsageFromExactly(elseBody, map[], x);
    case For(target, iter, body, orelse) =>
      TargetsUsage([target], usage, x);
      ExprUsage(iter, CollectTargets([target], usage), x);
      UsageFromExactly(body, map[], x);
      UsageFromExactly(orelse, map[], x);
    case While(test, body, orelse) =>
      ExprUsage(test, usage, x);
      UsageFromExactly(body, map[], x);
      UsageFromExactly(orelse, map[], x);
  }

  lemma {:induction false} UsageFromExactly(b: seq<Stmt>, usage: Usage, x: Name)
    ensures x in UsageFrom(b, usage) <==> x in usage || BodyAssigns(b, x) || BodyReads(b, x)
    ensures Written(UsageFrom(b, usage), x) <==> Written(usage, x) || BodyAssigns(b, x)
    decreases b, 0
  {
    if b != [] {
      StmtUsage(b[0], usage, x);
      UsageFromExactly(b[1..], CollectStmt(b[0], usage), x);
    }
  }

  /** The map of a body holds exactly the variables it mentions, and marks write
      exactly those that are a target, at any depth and in any order. */
  lemma UsageExactly(b: seq<Stmt>, x: Name)
    ensures x in BodyUsage(b) <==> BodyAssigns(b, x) || BodyReads(b, x)
    ensures Written(BodyUsage(b), x) <==> BodyAssigns(b, x)
  {
    UsageFromExactly(b, map[], x);
  }

  ghost predicate Covers(usage: Usage, st: Stmt) {
    forall x :: (Assigns(st, x) ==> Written(usage, x)) && (Reads(st, x) ==> x in usage)
  }

  ghost predicate CoversAll(usage: Usage, b: seq<Stmt>) {
    forall x :: (BodyAssigns(b, x) ==> Written(usage, x)) && (BodyReads(b, x) ==> x in usage)
  }

  ghost predicate CoversExpr(usage: Usage, e: Expr) {
    forall x :: InExpr(e, x) ==> x in usage
  }

  /* ---- Runs stay within their usage ---- */

  predicate Agree(s: Store, t: Store, usage: Usage) {
    forall x :: x in usage ==> (x in s <==> x in t) && (x in s ==> s[x] == t[x])
  }

  // A variable that is not written keeps its value, or its absence.
  ghost predicate Framed(s: Store, s': Store, usage: Usage) {
    forall x :: !Written(usage, x) ==> (x in s <==> x in s') && (x in s ==> s[x] == s'[x])
  }

  predicate SameResult(r: Result, r': Result, usage: Usage) {
    match (r, r')
    case (Done(Finish(s)), Done(Finish(t))) => Agree(s, t, usage)
    case (Done(Brk(s)), Done(Brk(t))) => Agree(s, t, usage)
    case (Done(Cont(s)), Done(Cont(t))) => Agree(s, t, usage)
    case (_, _) => r == r'
  }

  ghost predicate KeepsFrame(s: Store, r: Result, usage: Usage) {
    r.Done? && !r.outcome.Ret? ==> Framed(s, r.outcome.store, usage)
  }

  lemma {:induction false} EvalAgrees(e: Expr, s: Store, t: Store, usage: Usage)
    requires Agree(s, t, usage) && CoversExpr(usage, e)
    ensures Eval(e, s) == Eval(e, t)
    decreases e
  {
    match e
    case Const(_) =>
    case Var(x) => assert InExpr(e, x);
    case Dynamic(_, captures) =>
      forall x | InExprs(captures, x) ensures x in usage {
        assert InExpr(e, x);
      }
      EvalAllAgrees(captures, s, t, usage);
  }

  lemma {:induction false} EvalAllAgrees(es: seq<Expr>, s: Store, t: Store, usage: Usage)
    requires Agree(s, t, usage) && forall x :: InExprs(es, x) ==> x in usage
    ensures EvalAll(es, s) == EvalAll(es, t)
    decreases es
  {
    if es != [] {
      EvalAgrees(es[0], s, t, usage);
      EvalAllAgrees(es[1..], s, t, usage);
    }
  }

  lemma PairReads(target: Name, operand: Expr, x: Name)
    requires InExprs([Var(target), operand], x)
    ensures x == target || InExpr(operand, x)
  {
    var both, one := [Var(target), operand], [operand];
    assert both[1..] == one && one[1..] == [];
    assert !InExprs(one[1..], x);
    assert InExprs(one, x) == InExpr(operand, x);
    assert InExprs(both, x) == (InExpr(both[0], x) || InExprs(both[1..], x));
  }

  lemma {:induction false} AssignAllKeeps(targets: seq<Name>, v: Value, s: Store, t: Store, usage: Usage)
    requires Agree(s, t, usage) && forall x :: x in targets ==> Written(usage, x)
    ensures Agree(AssignAll(targets, v, s), AssignAll(targets, v, t), usage)
    ensures Framed(s, AssignAll(targets, v, s), usage)
    decreases |targets|
  {
    if targets != [] {
      AssignAllKeeps(targets[1..], v, s[targets[0] := v], t[targets[0] := v], usage);
    }
  }

  lemma {:induction false} BodyRespects(w: World, b: seq<Stmt>, s: Store, t: Store, usage: Usage, n: nat)
    requires CoversAll(usage, b) && Agree(s, t, usage)
    ensures SameResult(RunBody(w, b, s, n), RunBody(w, b, t, n), usage)
    ensures KeepsFrame(s, RunBody(w, b, s, n), usage)
    decreases n, b, 3
  {
    if b != [] {
      StmtRespects(w, b[0], s, t, usage, n);
      var first, first' := RunStmt(w, b[0], s, n), RunStmt(w, b[0], t, n);
      if first.Done? && first.outcome.Finish? {
        BodyRespects(w, b[1..], first.outcome.store, first'.outcome.store, usage, n);
      }
    }
  }

  lemma {:induction false} StmtRespects(w: World, st: Stmt, s: Store, t: Store, usage: Usage, n: nat)
    requires Covers(usage, st) && Agree(s, t, usage)
    ensures SameResult(RunStmt(w, st, s, n), RunStmt(w, st, t, n), usage)
    ensures KeepsFrame(s, RunStmt(w, st, s, n), usage)
    decreases n, st, 2
  {
    match st
    case Assign(targets, value) =>
      EvalAgrees(value, s, t, usage);
      if Eval(value, s).Some? {
        AssignAllKeeps(targets, Eval(value, s).value, s, t, usage);
      }
    case AugAssign(target, op, operand) =>
      assert Assigns(st, target);
      var operands := [Var(target), operand];
      forall x | InExprs(operands, x) ensures x in usage {
        PairReads(target, operand, x);
        assert Reads(st, x) || Assigns(st, x);
      }
      EvalAllAgrees(operands, s, t, usage);
    case ExprStmt(value) => EvalAgrees(value, s, t, usage);
    case Return(result) => if result.Some? { EvalAgrees(result.value, s, t, usage); }
    case Break =>
    case Continue =>
    case If(test, thenBody, elseBody) =>
      EvalAgrees(test, s, t, usage);
      if Eval(test, s).Some? {
        BodyRespects(w, if w.truthy(Eval(test, s).value) then thenBody else elseBody, s, t, usage, n);
      }
    case For(_, iter, _, _) =>
      EvalAgrees(iter, s, t, usage);
      if Eval(iter, s).Some? && w.iter(Eval(iter, s).value).Some? {
        LoopRespects(w, st, w.iter(Eval(iter, s).value), s, t, usage, n);
      }
    case While(_, _, _) => LoopRespects(w, st, None, s, t, usage, n);
  }

  predicate SameTurn(turn: Turn, turn': Turn, usage: Usage) {
    match (turn, turn')
    case (Enter(s, it), Enter(t, it')) => it == it' && Agree(s, t, usage)
    case (Exhausted(s), Exhausted(t)) => Agree(s, t, usage)
    case (_, _) => turn == turn'
  }

  lemma AdvanceRespects(w: World, st: Stmt, it: Option<Value>, s: Store, t: Store, usage: Usage)
    requires IsLoop(st) && Covers(usage, st) && Agree(s, t, usage)
    ensures SameTurn(Advance(w, st, it, s), Advance(w, st, it, t), usage)
    ensures !Advance(w, st, it, s).Stuck? ==> Framed(s, Advance(w, st, it, s).store, usage)
  {
    if st.While? {
      EvalAgrees(st.test, s, t, usage);
    } else {
      assert Assigns(st, st.target);
    }
  }

  lemma FrameChains(s: Store, m: Store, r: Result, usage: Usage)
    requires Framed(s, m, usage) && KeepsFrame(m, r, usage)
    ensures KeepsFrame(s, r, usage)
  {
  }

  lemma BodiesCovered(st: Stmt, usage: Usage)
    requires IsLoop(st) && Covers(usage, st)
    ensures CoversAll(usage, st.body) && CoversAll(usage, st.orelse)
  {
    forall x
      ensures (BodyAssigns(st.body, x) ==> Written(usage, x)) && (BodyReads(st.body, x) ==> x in usage)
      ensures (BodyAssigns(st.orelse, x) ==> Written(usage, x)) && (BodyReads(st.orelse, x) ==> x in usage)
    {
      assert (Assigns(st, x) ==> Written(usage, x)) && (Reads(st, x) ==> x in usage);
    }
  }

  lemma {:induction false} LoopRespects(w: World, st: Stmt, it: Option<Value>, s: Store, t: Store, usage: Usage, n: nat)
    requires IsLoop(st) && Covers(usage, st) && Agree(s, t, usage)
    ensures SameResult(RunLoop(w, st, it, s, n), RunLoop(w, st, it, t, n), usage)
    ensures KeepsFrame(s, RunLoop(w, st, it, s, n), usage)
    decreases n, st, 1
  {
    hide Agree, Framed, Advance, Covers, CoversAll;
    AdvanceRespects(w, st, it, s, t, usage);
    BodiesCovered(st, usage);
    var turn, turn' := Advance(w, st, it, s), Advance(w, st, it, t);
    if n > 0 && turn.Exhausted? {
      BodyRespects(w, st.orelse, turn.store, turn'.store, usage, n - 1);
      FrameChains(s, turn.store, RunBody(w, st.orelse, turn.store, n - 1), usage);
    } else if n > 0 && turn.Enter? {
      BodyRespects(w, st.body, turn.store, turn'.store, usage, n - 1);
      var first, first' := RunBody(w, st.body, turn.store, n - 1), RunBody(w, st.body, turn'.store, n - 1);
      FrameChains(s, turn.store, first, usage);
      if first.Done? && (first.outcome.Finish? || first.outcome.Cont?) {
        LoopRespects(w, st, turn.it, first.outcome.store, first'.outcome.store, usage, n - 1);
        FrameChains(s, first.outcome.store, RunLoop(w, st, turn.it, first.outcome.store, n - 1), usage);
      }
    }
  }

  /** The usage map is a sound frame: a run changes only variables marked write,
      and depends only on variables in the map. */
  lemma UsageIsSound(w: World, b: seq<Stmt>, s: Store, t: Store, n: nat)
    requires Agree(s, t, BodyUsage(b))
    ensures KeepsFrame(s, RunBody(w, b, s, n), BodyUsage(b))
    ensures SameResult(RunBody(w, b, s, n), RunBody(w, b, t, n), BodyUsage(b))
  {
    forall x
      ensures (BodyAssigns(b, x) ==> Written(BodyUsage(b), x)) && (BodyReads(b, x) ==> x in BodyUsage(b))
    {
      UsageExactly(b, x);
    }
    BodyRespects(w, b, s, t, BodyUsage(b), n);
  }
}
