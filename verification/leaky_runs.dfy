/** Which runs leak: the loop a run leaves by, through return or continue, rebuilds
    its finish bundle whenever it has made a turn. All of it is read off the source
    run, at the statement by which the run leaves each list. */
module LeakyRuns {
  import opened Options
  import opened Ir
  import opened Python
  import opened Orderliness

  // The lists that the frontend lets through: well closed at every level.
  predicate Validated(b: seq<Stmt>)
    decreases b, 1
  {
    WellClosed(b) && AllValidated(b)
  }

  predicate AllValidated(b: seq<Stmt>)
    decreases b, 0
  {
    b == [] || (ValidatedStmt(b[0]) && AllValidated(b[1..]))
  }

  predicate ValidatedStmt(st: Stmt)
    decreases st, 0
  {
    match st
    case If(_, thenBody, elseBody) => Validated(thenBody) && Validated(elseBody)
    case For(_, _, body, orelse) => Validated(body) && Validated(orelse)
    case While(_, body, orelse) => Validated(body) && Validated(orelse)
    case _ => true
  }

  predicate Escapes(r: Result) {
    r.Done? && (r.outcome.Ret? || r.outcome.Cont?)
  }

  /* ---- Leaks ---- */

  predicate LeaksBody(w: World, b: seq<Stmt>, s: Store, n: nat)
    decreases n, b, 3
  {
    b != [] && RunStmt(w, b[0], s, n).Done?
    && var o := RunStmt(w, b[0], s, n).outcome;
       if o.Finish? then LeaksBody(w, b[1..], o.store, n) else LeaksStmt(w, b[0], s, n)
  }

  predicate LeaksStmt(w: World, st: Stmt, s: Store, n: nat)
    decreases n, st, 2
  {
    match st
    case If(test, thenBody, elseBody) =>
      Eval(test, s).Some? && LeaksBody(w, if w.truthy(Eval(test, s).value) then thenBody else elseBody, s, n)
    case For(_, iter, _, _) => Eval(iter, s).Some? && LeaksLoop(w, st, w.iter(Eval(iter, s).value), s, n)
    case While(_, _, _) => LeaksLoop(w, st, None, s, n)
    case _ => false
  }

  // Its own exits may cut the finish.
  predicate LeaksLoop(w: World, st: Stmt, it: Option<Value>, s: Store, n: nat)
    requires IsLoop(st)
    decreases n, st, 1
  {
    && n > 0 && Escapes(RunLoop(w, st, it, s, n)) && Fallthrough in StmtExits(st)
    && match Advance(w, st, it, s)
       case Stuck => false
       case Exhausted(s') => LeaksBody(w, st.orelse, s', n - 1)
       case Enter(_, _) => true
  }

  lemma {:induction false} LeakedBody(w: World, b: seq<Stmt>, s: Store, n: nat)
    requires LeaksBody(w, b, s, n)
    ensures Escapes(RunBody(w, b, s, n)) && Fallthrough in CollectedExits(b)
    decreases n, b, 3
  {
    var o := RunStmt(w, b[0], s, n).outcome;
    StmtExitsSound(w, b[0], s, n);
    if o.Finish? {
      LeakedBody(w, b[1..], o.store, n);
    } else {
      LeakedStmt(w, b[0], s, n);
    }
  }

  // A leak is never cut by a conditional around it.
  lemma {:induction false} LeakedStmt(w: World, st: Stmt, s: Store, n: nat)
    requires LeaksStmt(w, st, s, n) && RunStmt(w, st, s, n).Done?
    ensures IsCompound(st) && Escapes(RunStmt(w, st, s, n)) && Fallthrough in StmtExits(st)
    decreases n, st, 2
  {
    if st.If? {
      LeakedBody(w, if w.truthy(Eval(st.test, s).value) then st.thenBody else st.elseBody, s, n);
    }
  }

  /* ---- Runs whose leak is followed by straight code only ---- */

  // A return that leaves nothing else: straight code after the jump, no loop on
  // the way out but one whose exits cut everything else.
  predicate NeatBody(w: World, b: seq<Stmt>, s: Store, n: nat)
    decreases n, b, 3
  {
    b != [] && RunStmt(w, b[0], s, n).Done?
    && var o := RunStmt(w, b[0], s, n).outcome;
       if o.Finish? then NeatBody(w, b[1..], o.store, n)
       else if IsCompound(b[0]) then NeatStmt(w, b[0], s, n)
       else StraightLine(b[1..])
  }

  predicate NeatStmt(w: World, st: Stmt, s: Store, n: nat)
    decreases n, st, 2
  {
    match st
    case If(test, thenBody, elseBody) =>
      Eval(test, s).Some? && NeatBody(w, if w.truthy(Eval(test, s).value) then thenBody else elseBody, s, n)
    case For(_, iter, _, _) => StmtExits(st) == {Returns}
    case While(_, _, _) => StmtExits(st) == {Returns}
    case _ => false
  }

  predicate PlainBody(w: World, b: seq<Stmt>, s: Store, n: nat)
    decreases n, b, 3
  {
    b != [] && RunStmt(w, b[0], s, n).Done? ==>
      var o := RunStmt(w, b[0], s, n).outcome;
      if o.Finish? then PlainBody(w, b[1..], o.store, n)
      else IsCompound(b[0]) ==>
             PlainStmt(w, b[0], s, n) && (LeaksStmt(w, b[0], s, n) ==> StraightLine(b[1..]))
  }

  predicate PlainStmt(w: World, st: Stmt, s: Store, n: nat)
    decreases n, st, 2
  {
    match st
    case If(test, thenBody, elseBody) =>
      Eval(test, s).Some? ==> PlainBody(w, if w.truthy(Eval(test, s).value) then thenBody else elseBody, s, n)
    case For(_, iter, _, _) => Eval(iter, s).Some? ==> PlainLoop(w, st, w.iter(Eval(iter, s).value), s, n)
    case While(_, _, _) => PlainLoop(w, st, None, s, n)
    case _ => true
  }

  predicate PlainLoop(w: World, st: Stmt, it: Option<Value>, s: Store, n: nat)
    requires IsLoop(st)
    decreases n, st, 1
  {
    n > 0 ==>
      match Advance(w, st, it, s)
      case Stuck => true
      case Exhausted(s') => PlainBody(w, st.orelse, s', n - 1)
      case Enter(_, _) => SettlesLoop(w, st, it, s, n)
  }

  /* A loop left by return neither breaks nor continues as well: its exits say so,
     or the list it returned from leaves nothing else. */
  predicate SettlesLoop(w: World, st: Stmt, it: Option<Value>, s: Store, n: nat)
    requires IsLoop(st)
    decreases n
  {
    n > 0 ==>
      match Advance(w, st, it, s)
      case Stuck => true
      case Exhausted(s') => Settles(w, st, st.orelse, s', n - 1)
      case Enter(s', it') =>
        match RunBody(w, st.body, s', n - 1)
        case Done(Finish(s'')) => SettlesLoop(w, st, it', s'', n - 1)
        case Done(Cont(s'')) => SettlesLoop(w, st, it', s'', n - 1)
        case _ => Settles(w, st, st.body, s', n - 1)
  }

  predicate Settles(w: World, st: Stmt, b: seq<Stmt>, s: Store, n: nat) {
    RunBody(w, b, s, n).Done? && RunBody(w, b, s, n).outcome.Ret? ==>
      {Breaks, Continues} !! StmtExits(st) || NeatBody(w, b, s, n)
  }

  /* ---- Runs that cannot leak ---- */

  // No loop of the list may leave by this exit; loops inside loops do not matter.
  predicate LoopsSpare(b: seq<Stmt>, exit: Exit)
    decreases b, 0
  {
    b == [] || (LoopSpares(b[0], exit) && LoopsSpare(b[1..], exit))
  }

  predicate LoopSpares(st: Stmt, exit: Exit)
    decreases st, 0
  {
    match st
    case If(_, thenBody, elseBody) => LoopsSpare(thenBody, exit) && LoopsSpare(elseBody, exit)
    case For(_, _, _, _) => exit !in StmtExits(st)
    case While(_, _, _) => exit !in StmtExits(st)
    case _ => true
  }

  // Nothing leaks where the run finishes or breaks, or leaves by no loop.
  predicate Tight(b: seq<Stmt>, o: Outcome) {
    o.Ret? || o.Cont? ==> LoopsSpare(b, ExitOf(o))
  }

  predicate TightStmt(st: Stmt, o: Outcome) {
    o.Ret? || o.Cont? ==> LoopSpares(st, ExitOf(o))
  }

  lemma {:induction false} TightBody(w: World, b: seq<Stmt>, s: Store, n: nat)
    requires RunBody(w, b, s, n).Done? && Tight(b, RunBody(w, b, s, n).outcome)
    ensures PlainBody(w, b, s, n) && !LeaksBody(w, b, s, n)
    decreases n, b, 3
  {
    if b != [] {
      var o := RunStmt(w, b[0], s, n).outcome;
      if o.Finish? {
        TightBody(w, b[1..], o.store, n);
      } else if IsCompound(b[0]) {
        TightCompound(w, b[0], s, n);
      }
    }
  }

  lemma {:induction false} TightCompound(w: World, st: Stmt, s: Store, n: nat)
    requires IsCompound(st) && RunStmt(w, st, s, n).Done? && !RunStmt(w, st, s, n).outcome.Finish?
    requires TightStmt(st, RunStmt(w, st, s, n).outcome)
    ensures PlainStmt(w, st, s, n) && !LeaksStmt(w, st, s, n)
    decreases n, st, 2
  {
    StmtExitsSound(w, st, s, n);
    match st
    case If(test, thenBody, elseBody) =>
      TightBody(w, if w.truthy(Eval(test, s).value) then thenBody else elseBody, s, n);
    case For(_, iter, _, _) => BreakIsPlain(w, st, w.iter(Eval(iter, s).value), s, n);
    case While(_, _, _) => BreakIsPlain(w, st, None, s, n);
  }

  lemma {:induction false} BreakIsPlain(w: World, st: Stmt, it: Option<Value>, s: Store, n: nat)
    requires IsLoop(st) && RunLoop(w, st, it, s, n).Done? && RunLoop(w, st, it, s, n).outcome.Brk?
    ensures PlainLoop(w, st, it, s, n) && !LeaksLoop(w, st, it, s, n)
    decreases n, st, 1
  {
    BreakSettles(w, st, it, s, n);
    match Advance(w, st, it, s)
    case Exhausted(s') => TightBody(w, st.orelse, s', n - 1);
    case Enter(_, _) =>
  }

  lemma {:induction false} BreakSettles(w: World, st: Stmt, it: Option<Value>, s: Store, n: nat)
    requires IsLoop(st) && RunLoop(w, st, it, s, n).Done? && RunLoop(w, st, it, s, n).outcome.Brk?
    ensures SettlesLoop(w, st, it, s, n)
    decreases n
  {
    match Advance(w, st, it, s)
    case Exhausted(s') =>
    case Enter(s', it') =>
      match RunBody(w, st.body, s', n - 1)
      case Done(Finish(s'')) => BreakSettles(w, st, it', s'', n - 1);
      case Done(Cont(s'')) => BreakSettles(w, st, it', s'', n - 1);
      case _ =>
  }
}
