/** Which bodies are covered by lowering_correct.dfy: a static analysis of what a
    statement may leave in its finish channel beside a break or a continue. */
module Orderliness {
  import opened Ir

  predicate StraightLine(b: seq<Stmt>) {
    forall i :: 0 <= i < |b| ==> !IsCompound(b[i]) && !IsJump(b[i])
  }

  // Runs on a leaked bundle without a trace: no loop, no return and no break.
  predicate Harmless(b: seq<Stmt>)
    decreases b, 1
  {
    b == [] || (if b[0].Continue? then StraightLine(b[1..]) else HarmlessStmt(b[0]) && Harmless(b[1..]))
  }

  predicate HarmlessStmt(st: Stmt)
    decreases st, 0
  {
    match st
    case Assign(_, _) => true
    case AugAssign(_, _, _) => true
    case ExprStmt(_) => true
    case If(_, thenBody, elseBody) => Harmless(thenBody) && Harmless(elseBody)
    case _ => false
  }

  /* The finish channel beside a live continue: erased, perhaps a leaked bundle
     whose cells are decided, or anything at all. */
  datatype Residue = Clean | Decided | Murky

  function Worse(r: Residue, r': Residue): Residue {
    if r.Murky? || r'.Murky? then Murky else if r.Decided? then r else r'
  }

  // After the rest of the list has run on what was left.
  function Onward(r: Residue, rest: seq<Stmt>): Residue {
    if r.Decided? && !Harmless(rest) then Murky else r
  }

  // A loop that made a turn rebuilds its finish bundle whatever it does then.
  function ContinueResidue(st: Stmt): Residue
    decreases st, 0
  {
    match st
    case If(_, thenBody, elseBody) => Worse(BodyResidue(thenBody), BodyResidue(elseBody))
    case For(_, _, _, orelse) => ElseResidue(st, orelse)
    case While(_, _, orelse) => ElseResidue(st, orelse)
    case _ => Clean
  }

  function ElseResidue(loop: Stmt, orelse: seq<Stmt>): Residue
    requires IsLoop(loop) && orelse == loop.orelse
    decreases orelse, 3
  {
    if Fallthrough in StmtExits(loop) then LeakOf(orelse) else Clean
  }

  // Before the loop's own exits have cut it.
  function LeakOf(orelse: seq<Stmt>): Residue
    decreases orelse, 2
  {
    if Continues in BodyExits(orelse) then Worse(Decided, BodyResidue(orelse)) else Clean
  }

  function ListResidue(b: seq<Stmt>): Residue
    decreases b, 0
  {
    if b == [] || b[0].Return? || b[0].Break? then Clean
    else if b[0].Continue? then (if StraightLine(b[1..]) then Clean else Murky)
    else if !IsCompound(b[0]) then ListResidue(b[1..])
    else if IsCloser(b[0]) then Onward(ContinueResidue(b[0]), b[1..])
    else Worse(Onward(ContinueResidue(b[0]), b[1..]), ListResidue(b[1..]))
  }

  // Without fallthrough among the exits the finish channel is cut.
  function BodyResidue(b: seq<Stmt>): Residue
    decreases b, 1
  {
    if Fallthrough in BodyExits(b) then ListResidue(b) else Clean
  }

  // The finish channel beside a live break may still be pending.
  predicate Stalls(st: Stmt)
    decreases st, 0
  {
    match st
    case If(_, thenBody, elseBody) => BodyStalls(thenBody) || BodyStalls(elseBody)
    case For(_, _, _, orelse) => BodyStalls(orelse)
    case While(_, _, orelse) => BodyStalls(orelse)
    case _ => false
  }

  predicate ListStalls(b: seq<Stmt>)
    decreases b, 0
  {
    if b == [] || b[0].Return? || b[0].Continue? then false
    else if b[0].Break? then !StraightLine(b[1..])
    else if !IsCompound(b[0]) then ListStalls(b[1..])
    else Stalls(b[0]) || (!IsCloser(b[0]) && ListStalls(b[1..]))
  }

  predicate BodyStalls(b: seq<Stmt>)
    decreases b, 1
  {
    Fallthrough in BodyExits(b) && ListStalls(b)
  }

  // The body of a loop may in addition leave its continue channel undecided.
  predicate TurnStalls(b: seq<Stmt>) {
    !({Fallthrough, Continues} !! BodyExits(b)) && ListStalls(b)
  }

  /* What follows a jump or a leak in its own list runs on registers that have been
     given away, so it must not reach a channel that is read before the jump's: it
     is cut, or the statements are harmless. `turn` says that the list is the body
     of a loop, which looks at break before continue. Nothing is asked of the
     statements after a return or a closing conditional. */
  predicate Orderly(b: seq<Stmt>, exits: Exits, turn: bool)
    decreases b, 1
  {
    b == []
    || match b[0]
       case Return(_) => true
       case Continue =>
         StraightLine(b[1..]) || (AllValidPostExit(b[1..]) && {Returns, Breaks} !! exits)
       case Break =>
         StraightLine(b[1..]) || (AllValidPostExit(b[1..]) && SparesBreak(exits, turn))
       case _ =>
         && OrderlyStmt(b[0])
         && (!IsCloser(b[0]) ==> Orderly(b[1..], exits, turn))
         && (Onward(ContinueResidue(b[0]), b[1..]).Murky? ==> {Returns, Breaks} !! exits)
         && (Stalls(b[0]) ==> SparesBreak(exits, turn))
  }

  predicate SparesBreak(exits: Exits, turn: bool) {
    Returns !in exits && (turn || Continues !in exits)
  }

  predicate OrderlyStmt(st: Stmt)
    decreases st, 1
  {
    match st
    case If(_, thenBody, elseBody) => OrderlyBody(thenBody, false) && OrderlyBody(elseBody, false)
    case For(_, _, body, orelse) => OrderlyLoop(st, body, orelse)
    case While(_, body, orelse) => OrderlyLoop(st, body, orelse)
    case _ => true
  }

  // A turn that stalls leaves the recursion pending, on all the loop's exits.
  predicate OrderlyLoop(loop: Stmt, body: seq<Stmt>, orelse: seq<Stmt>)
    requires IsLoop(loop) && body == loop.body && orelse == loop.orelse
    decreases loop, 0
  {
    OrderlyBody(body, true) && OrderlyBody(orelse, false) && (TurnStalls(body) ==> StmtExits(loop) <= {Fallthrough})
  }

  predicate OrderlyBody(b: seq<Stmt>, turn: bool)
    decreases b, 2
  {
    Orderly(b, BodyExits(b), turn)
  }

  predicate OrderlyFunction(b: seq<Stmt>) {
    Orderly(b, FunctionExits(b), false)
  }

  predicate AllOrderly(b: seq<Stmt>) {
    forall i :: 0 <= i < |b| ==> OrderlyStmt(b[i])
  }
}
