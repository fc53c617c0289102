/** The statement IR of src/natsune/frontend/ir/nodes.py, restricted to value
    variables, with its `Exits` may-analysis. */
module Ir {
  import opened Options

  type Name = string

  // Run-time values are handles; a `World` (python.dfy) says what they mean.
  type Value = int

  // A dynamic expression is a pure function of its captures; None is a raise.
  datatype Expr =
    | Const(constant: Value)
    | Var(name: Name)
    | Dynamic(fn: seq<Value> -> Option<Value>, captures: seq<Expr>)

  datatype Stmt =
    | Assign(targets: seq<Name>, value: Expr)
    | AugAssign(target: Name, op: (Value, Value) -> Option<Value>, operand: Expr)
    | ExprStmt(value: Expr)
    | Return(result: Option<Expr>)
    | Break
    | Continue
    | If(test: Expr, thenBody: seq<Stmt>, elseBody: seq<Stmt>)
    | For(target: Name, iter: Expr, body: seq<Stmt>, orelse: seq<Stmt>)
    | While(test: Expr, body: seq<Stmt>, orelse: seq<Stmt>)

  predicate IsJump(st: Stmt) {
    st.Return? || st.Break? || st.Continue?
  }

  predicate IsLoop(st: Stmt) {
    st.For? || st.While?
  }

  predicate IsCompound(st: Stmt) {
    st.If? || IsLoop(st)
  }

  /* The Exits bit set: a set bit is a possible way to leave the node. */
  datatype Exit = Fallthrough | Returns | Breaks | Continues
  type Exits = set<Exit>

  function LoopExits(body: Exits, orelse: Exits): Exits {
    body * {Fallthrough, Returns} + orelse + if Breaks in body then {Fallthrough} else {}
  }

  function StmtExits(st: Stmt): Exits
    decreases st, 1
  {
    match st
    case If(_, thenBody, elseBody) => BodyExits(thenBody) + BodyExits(elseBody)
    case For(_, _, body, orelse) => LoopExits(BodyExits(body), BodyExits(orelse))
    case While(_, body, orelse) => LoopExits(BodyExits(body), BodyExits(orelse))
    case Return(_) => {Returns}
    case Break => {Breaks}
    case Continue => {Continues}
    case _ => {Fallthrough}
  }

  // A closer is a statement that never returns flow to its list.
  predicate IsCloser(st: Stmt)
    decreases st, 2
  {
    IsJump(st) || (IsCompound(st) && Fallthrough !in StmtExits(st))
  }

  predicate IsDisjunctive(st: Stmt)
  {
    IsCompound(st) && Fallthrough in StmtExits(st)
  }

  // Exits of the disjunctives up to the closer, and of the closer itself.
  function CollectedExits(b: seq<Stmt>): Exits
    decreases b, 0
  {
    if b == [] then {}
    else if IsJump(b[0]) then StmtExits(b[0])
    else if IsCompound(b[0]) then
      if Fallthrough in StmtExits(b[0]) then StmtExits(b[0]) + CollectedExits(b[1..]) else StmtExits(b[0])
    else CollectedExits(b[1..])
  }

  function BodyExits(b: seq<Stmt>): Exits
    decreases b, 1
  {
    if CollectedExits(b) == {} then {Fallthrough} else CollectedExits(b)
  }

  predicate HasCloser(b: seq<Stmt>) {
    b != [] && (IsCloser(b[0]) || HasCloser(b[1..]))
  }

  // No statement before i closes the list.
  predicate OpenBefore(b: seq<Stmt>, i: nat)
    requires i <= |b|
  {
    forall j :: 0 <= j < i ==> !IsCloser(b[j])
  }

  function Compounds(b: seq<Stmt>): seq<Stmt> {
    if b == [] then []
    else Compounds(b[..|b| - 1]) + if IsCompound(b[|b| - 1]) then [b[|b| - 1]] else []
  }

  // IrFunction.exits: falling off the end is an implicit return.
  function FunctionExits(b: seq<Stmt>): Exits {
    if Fallthrough in BodyExits(b) then BodyExits(b) + {Returns} - {Fallthrough} else BodyExits(b)
  }

  /* Statements after the closer must not be able to exit themselves. */
  predicate ValidPostExit(st: Stmt) {
    !IsJump(st) && (IsCompound(st) ==> StmtExits(st) == {Fallthrough})
  }

  predicate AllValidPostExit(b: seq<Stmt>) {
    forall i :: 0 <= i < |b| ==> ValidPostExit(b[i])
  }

  // No statement list raises IrStructureError at this level.
  predicate WellClosed(b: seq<Stmt>) {
    b == [] || if IsCloser(b[0]) then AllValidPostExit(b[1..]) else WellClosed(b[1..])
  }

  /* A body without a closer can always fall through, so the assertion at the
     implicit return of lower_statements only ever sees a promoted RETURN. */
  lemma {:induction false} OpenBodyFallsThrough(b: seq<Stmt>)
    ensures !HasCloser(b) ==> Fallthrough in BodyExits(b)
    ensures Fallthrough !in FunctionExits(b)
    ensures !HasCloser(b) ==> Returns in FunctionExits(b)
  {
    if !HasCloser(b) && b != [] {
      OpenBodyFallsThrough(b[1..]);
      if !IsCompound(b[0]) {
        assert CollectedExits(b) == CollectedExits(b[1..]);
      }
    }
  }

  /* Union of the exits of the statements in a list. */
  function UnionExits(sts: seq<Stmt>): Exits {
    if sts == [] then {} else UnionExits(sts[..|sts| - 1]) + StmtExits(sts[|sts| - 1])
  }

  // IrBody.exits as written: the closer's exits joined with the disjunctives'.
  function ExitsOfParts(disjunctives: seq<Stmt>, closer: Option<Stmt>): Exits {
    var result := (if closer.Some? then StmtExits(closer.value) else {}) + UnionExits(disjunctives);
    if result == {} then {Fallthrough} else result
  }

  // What the scan has seen before index: no closer, and these disjunctives.
  ghost predicate Scanned(b: seq<Stmt>, index: nat, disjunctives: seq<Stmt>) {
    && index <= |b| && OpenBefore(b, index) && disjunctives == Compounds(b[..index])
    && (forall i :: 0 <= i < |disjunctives| ==> IsDisjunctive(disjunctives[i]))
    && CollectedExits(b) == UnionExits(disjunctives) + CollectedExits(b[index..])
    && HasCloser(b) == HasCloser(b[index..]) && WellClosed(b) == WellClosed(b[index..])
  }

  lemma ScanNext(b: seq<Stmt>, index: nat, disjunctives: seq<Stmt>)
    requires Scanned(b, index, disjunctives) && index < |b| && !IsCloser(b[index])
    ensures Scanned(b, index + 1, if IsCompound(b[index]) then disjunctives + [b[index]] else disjunctives)
  {
    var st := b[index];
    assert b[index..][0] == st && b[index..][1..] == b[index + 1..];
    assert b[..index + 1][..index] == b[..index];
    assert (disjunctives + [st])[..|disjunctives|] == disjunctives;
  }

  lemma ScanCloses(b: seq<Stmt>, index: nat, disjunctives: seq<Stmt>)
    requires Scanned(b, index, disjunctives) && index < |b| && IsCloser(b[index])
    ensures ExitsOfParts(disjunctives, Some(b[index])) == BodyExits(b) && HasCloser(b)
    ensures WellClosed(b) <==> forall j :: index < j < |b| ==> ValidPostExit(b[j])
  {
    var rest := b[index..];
    assert rest[0] == b[index] && rest[1..] == b[index + 1..];
    if forall j :: index < j < |b| ==> ValidPostExit(b[j]) {
      assert AllValidPostExit(rest[1..]);
    }
    if j :| index < j < |b| && !ValidPostExit(b[j]) {
      assert rest[1..][j - index - 1] == b[j];
    }
  }

  /** _analyze_body_flow: scan to the closer collecting disjunctives, then
      validate what follows it. `valid` is false where the code raises. */
  method AnalyzeBodyFlow(b: seq<Stmt>)
    returns (disjunctives: seq<Stmt>, closer: Option<Stmt>, valid: bool)
    ensures ExitsOfParts(disjunctives, closer) == BodyExits(b)
    ensures closer.Some? <==> HasCloser(b)
    ensures closer.Some? ==>
              exists i: nat :: i < |b| && OpenBefore(b, i) && IsCloser(b[i]) && closer.value == b[i]
                               && disjunctives == Compounds(b[..i])
    ensures closer.None? ==> disjunctives == Compounds(b)
    ensures forall i :: 0 <= i < |disjunctives| ==> IsDisjunctive(disjunctives[i])
    ensures valid <==> WellClosed(b)
  {
    hide StmtExits, CollectedExits, BodyExits, WellClosed, HasCloser, Compounds;
    disjunctives, closer, valid := [], None, true;
    ScanStarts(b);
    var index := 0;
    while index < |b|
      invariant 0 <= index <= |b|
      invariant Scanned(b, index, disjunctives)
    {
      var st := b[index];
      if IsJump(st) {
        closer := Some(st);
        break;
      }
      if IsCompound(st) {
        if Fallthrough in StmtExits(st) {
          ScanNext(b, index, disjunctives);
          disjunctives := disjunctives + [st];
        } else {
          closer := Some(st);
          break;
        }
      } else {
        ScanNext(b, index, disjunctives);
      }
      index := index + 1;
    }
    if closer.Some? {
      ScanCloses(b, index, disjunctives);
      var later := index + 1;
      while later < |b|
        invariant index < later <= |b|
        invariant forall j :: index < j < later ==> ValidPostExit(b[j])
      {
        if !ValidPostExit(b[later]) {
          return disjunctives, closer, false;
        }
        later := later + 1;
      }
    } else {
      ScanEnds(b, disjunctives);
    }
  }

  lemma ScanStarts(b: seq<Stmt>)
    ensures Scanned(b, 0, [])
  {
    assert b[0..] == b && b[..0] == [];
  }

  lemma ScanEnds(b: seq<Stmt>, disjunctives: seq<Stmt>)
    requires Scanned(b, |b|, disjunctives)
    ensures ExitsOfParts(disjunctives, None) == BodyExits(b) && !HasCloser(b) && WellClosed(b)
    ensures disjunctives == Compounds(b)
  {
    assert b[|b|..] == [] && b[..|b|] == b;
  }
}
