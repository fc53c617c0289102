/** What the source programs mean: a fuelled big-step interpreter with Python's
    return, break, continue and loop-else. */
module Python {
  import opened Options
  import opened Ir

  // The operations the IR delegates to Python. None is a raised exception,
  // except for `next`, where it is the end of the iteration.
  datatype World = World(
    truthy: Value -> bool,
    iter: Value -> Option<Value>,
    next: Value -> Option<(Value, Value)>,
    none: Value)

  type Store = map<Name, Value>

  datatype Outcome =
    | Finish(store: Store)
    | Ret(value: Value)
    | Brk(store: Store)
    | Cont(store: Store)

  datatype Result = Done(outcome: Outcome) | Raised | OutOfFuel

  function Eval(e: Expr, s: Store): Option<Value> {
    match e
    case Const(v) => Some(v)
    case Var(x) => if x in s then Some(s[x]) else None
    case Dynamic(fn, captures) =>
      match EvalAll(captures, s)
      case None => None
      case Some(vs) => fn(vs)
  }

  function EvalAll(es: seq<Expr>, s: Store): (r: Option<seq<Value>>)
    ensures r.Some? ==> |r.value| == |es|
  {
    if es == [] then Some([])
    else match Eval(es[0], s)
      case None => None
      case Some(v) =>
        match EvalAll(es[1..], s)
        case None => None
        case Some(vs) => Some([v] + vs)
  }

  function AssignAll(targets: seq<Name>, v: Value, s: Store): Store {
    if targets == [] then s else AssignAll(targets[1..], v, s[targets[0] := v])
  }

  // One turn of a loop header.
  datatype Turn = Enter(store: Store, it: Option<Value>) | Exhausted(store: Store) | Stuck

  function Advance(w: World, st: Stmt, it: Option<Value>, s: Store): Turn
    requires IsLoop(st)
  {
    if st.While? then
      match Eval(st.test, s)
      case None => Stuck
      case Some(v) => if w.truthy(v) then Enter(s, it) else Exhausted(s)
    else if it.None? then Stuck
    else
      match w.next(it.value)
      case None => Exhausted(s)
      case Some(step) => Enter(s[st.target := step.0], Some(step.1))
  }

  function RunBody(w: World, b: seq<Stmt>, s: Store, n: nat): Result
    decreases n, b, 3
  {
    if b == [] then Done(Finish(s))
    else match RunStmt(w, b[0], s, n)
      case Done(Finish(s')) => RunBody(w, b[1..], s', n)
      case other => other
  }

  function RunStmt(w: World, st: Stmt, s: Store, n: nat): Result
    decreases n, st, 2
  {
    match st
    case Assign(targets, value) =>
      (match Eval(value, s)
       case None => Raised
       case Some(v) => Done(Finish(AssignAll(targets, v, s))))
    case AugAssign(target, op, operand) =>
      (match EvalAll([Var(target), operand], s)
       case None => Raised
       case Some(vs) =>
         if op(vs[0], vs[1]).Some? then Done(Finish(s[target := op(vs[0], vs[1]).value])) else Raised)
    case ExprStmt(value) => if Eval(value, s).Some? then Done(Finish(s)) else Raised
    case Return(result) =>
      if result.None? then Done(Ret(w.none))
      else (match Eval(result.value, s) case None => Raised case Some(v) => Done(Ret(v)))
    case Break => Done(Brk(s))
    case Continue => Done(Cont(s))
    case If(test, thenBody, elseBody) =>
      (match Eval(test, s)
       case None => Raised
       case Some(v) => if w.truthy(v) then RunBody(w, thenBody, s, n) else RunBody(w, elseBody, s, n))
    case For(_, iter, _, _) =>
      (match Eval(iter, s)
       case None => Raised
       case Some(v) => if w.iter(v).None? then Raised else RunLoop(w, st, w.iter(v), s, n))
    case While(_, _, _) => RunLoop(w, st, None, s, n)
  }

  // Fuel counts loop turns; `it` (the iterator) is None for a while loop.
  function RunLoop(w: World, st: Stmt, it: Option<Value>, s: Store, n: nat): Result
    requires IsLoop(st)
    decreases n, st, 1
  {
    if n == 0 then OutOfFuel
    else match Advance(w, st, it, s)
      case Stuck => Raised
      case Exhausted(s') => RunBody(w, st.orelse, s', n - 1)
      case Enter(s', it') =>
        match RunBody(w, st.body, s', n - 1)
        case Done(Finish(s'')) => RunLoop(w, st, it', s'', n - 1)
        case Done(Cont(s'')) => RunLoop(w, st, it', s'', n - 1)
        case Done(Brk(s'')) => Done(Finish(s''))
        case other => other
  }

  // A call of a function body: falling off the end returns None.
  function Call(w: World, b: seq<Stmt>, s: Store, n: nat): Result {
    match RunBody(w, b, s, n)
    case Done(Finish(_)) => Done(Ret(w.none))
    case other => other
  }

  function ExitOf(o: Outcome): Exit {
    match o
    case Finish(_) => Fallthrough
    case Ret(_) => Returns
    case Brk(_) => Breaks
    case Cont(_) => Continues
  }

  /* More fuel never changes a finished run, so the fuel is only a bound. */
  lemma {:induction false} BodyFuel(w: World, b: seq<Stmt>, s: Store, n: nat, m: nat)
    requires n <= m && !RunBody(w, b, s, n).OutOfFuel?
    ensures RunBody(w, b, s, m) == RunBody(w, b, s, n)
    decreases n, b, 3
  {
    if b != [] {
      StmtFuel(w, b[0], s, n, m);
      var first := RunStmt(w, b[0], s, n);
      if first.Done? && first.outcome.Finish? {
        BodyFuel(w, b[1..], first.outcome.store, n, m);
      }
    }
  }

  lemma {:induction false} StmtFuel(w: World, st: Stmt, s: Store, n: nat, m: nat)
    requires n <= m && !RunStmt(w, st, s, n).OutOfFuel?
    ensures RunStmt(w, st, s, m) == RunStmt(w, st, s, n)
    decreases n, st, 2
  {
    match st
    case If(test, thenBody, elseBody) =>
      if Eval(test, s).Some? {
        BodyFuel(w, if w.truthy(Eval(test, s).value) then thenBody else elseBody, s, n, m);
      }
    case For(_, iter, _, _) =>
      if Eval(iter, s).Some? && w.iter(Eval(iter, s).value).Some? {
        LoopFuel(w, st, w.iter(Eval(iter, s).value), s, n, m);
      }
    case While(_, _, _) => LoopFuel(w, st, None, s, n, m);
    case _ =>
  }

  lemma {:induction false} LoopFuel(w: World, st: Stmt, it: Option<Value>, s: Store, n: nat, m: nat)
    requires IsLoop(st) && n <= m && !RunLoop(w, st, it, s, n).OutOfFuel?
    ensures RunLoop(w, st, it, s, m) == RunLoop(w, st, it, s, n)
    decreases n, st, 1
  {
    match Advance(w, st, it, s)
    case Stuck =>
    case Exhausted(s') => BodyFuel(w, st.orelse, s', n - 1, m - 1);
    case Enter(s', it') =>
      BodyFuel(w, st.body, s', n - 1, m - 1);
      match RunBody(w, st.body, s', n - 1)
      case Done(Finish(s'')) => LoopFuel(w, st, it', s'', n - 1, m - 1);
      case Done(Cont(s'')) => LoopFuel(w, st, it', s'', n - 1, m - 1);
      case _ =>
  }

  /* Soundness of the may-analysis: every run leaves a node by one of its exits. */
  lemma {:induction false} BodyExitsSound(w: World, b: seq<Stmt>, s: Store, n: nat)
    requires RunBody(w, b, s, n).Done?
    ensures ExitOf(RunBody(w, b, s, n).outcome) in BodyExits(b)
    ensures HasCloser(b) ==> !RunBody(w, b, s, n).outcome.Finish?
    decreases n, b, 3
  {
    if b != [] {
      StmtExitsSound(w, b[0], s, n);
      var first := RunStmt(w, b[0], s, n).outcome;
      if first.Finish? {
        BodyExitsSound(w, b[1..], first.store, n);
        if CollectedExits(b[1..]) == {} && CollectedExits(b) != {} {
          assert IsCompound(b[0]);
        }
      }
    }
  }

  lemma {:induction false} StmtExitsSound(w: World, st: Stmt, s: Store, n: nat)
    requires RunStmt(w, st, s, n).Done?
    ensures ExitOf(RunStmt(w, st, s, n).outcome) in StmtExits(st)
    decreases n, st, 2
  {
    match st
    case If(test, thenBody, elseBody) =>
      BodyExitsSound(w, if w.truthy(Eval(test, s).value) then thenBody else elseBody, s, n);
    case For(_, iter, _, _) => LoopExitsSound(w, st, w.iter(Eval(iter, s).value), s, n);
    case While(_, _, _) => LoopExitsSound(w, st, None, s, n);
    case _ =>
  }

  lemma {:induction false} LoopExitsSound(w: World, st: Stmt, it: Option<Value>, s: Store, n: nat)
    requires IsLoop(st) && RunLoop(w, st, it, s, n).Done?
    ensures ExitOf(RunLoop(w, st, it, s, n).outcome) in StmtExits(st)
    ensures RunLoop(w, st, it, s, n).outcome.Cont? ==> Continues in BodyExits(st.orelse)
    decreases n, st, 1
  {
    match Advance(w, st, it, s)
    case Exhausted(s') => BodyExitsSound(w, st.orelse, s', n - 1);
    case Enter(s', it') =>
      BodyExitsSound(w, st.body, s', n - 1);
      match RunBody(w, st.body, s', n - 1)
      case Done(Finish(s'')) => LoopExitsSound(w, st, it', s'', n - 1);
      case Done(Cont(s'')) => LoopExitsSound(w, st, it', s'', n - 1);
      case _ =>
  }
}
