/** What the exits of src/natsune/frontend/ir/nodes.py mean, by routes through the
    source: an exit is listed exactly when a route leads to it, and a statement
    closes its list exactly when none leads past it. */
module Routes {
  import opened Options
  import opened Ir

  /* A route through a list: to its level, where nothing branches or jumps; to a
     jump; or into a statement, by its first list (the then branch, the body of a
     loop) or its second. It says how it gets past each statement before. */
  datatype Route = Level | Jump(past: seq<Pass>) | Into(past: seq<Pass>, first: bool, rest: Route)
  datatype Pass = Straight | By(first: bool, route: Route)

  function JumpExit(st: Stmt): Exit
    requires IsJump(st)
  {
    match st
    case Return(_) => Returns
    case Break => Breaks
    case Continue => Continues
  }

  // The route r through b ends at exit e.
  predicate Leads(b: seq<Stmt>, r: Route, e: Exit)
    decreases b, 1
  {
    match r
    case Level => e == Fallthrough && forall i :: 0 <= i < |b| ==> !IsJump(b[i]) && !IsCompound(b[i])
    case Jump(past) => PassesAll(b, past) && IsJump(b[|past|]) && JumpExit(b[|past|]) == e
    case Into(past, first, rest) => PassesAll(b, past) && IsCompound(b[|past|]) && Within(b[|past|], first, rest, e)
  }

  predicate PassesAll(b: seq<Stmt>, past: seq<Pass>)
    decreases b, 0
  {
    |past| < |b| && forall j :: 0 <= j < |past| ==> Passes(b[j], past[j])
  }

  predicate Passes(st: Stmt, p: Pass)
    decreases st, 2
  {
    match p
    case Straight => !IsJump(st) && !IsCompound(st)
    case By(first, r) => IsCompound(st) && Within(st, first, r, Fallthrough)
  }

  /* In a loop's body a continue goes nowhere, and a break falls out of the loop. */
  predicate Within(st: Stmt, first: bool, r: Route, e: Exit)
    requires IsCompound(st)
    decreases st, 1
  {
    match st
    case If(_, thenBody, elseBody) => if first then Leads(thenBody, r, e) else Leads(elseBody, r, e)
    case For(_, _, body, orelse) =>
      if !first then Leads(orelse, r, e)
      else ((e == Fallthrough || e == Returns) && Leads(body, r, e)) || (e == Fallthrough && Leads(body, r, Breaks))
    case While(_, body, orelse) =>
      if !first then Leads(orelse, r, e)
      else ((e == Fallthrough || e == Returns) && Leads(body, r, e)) || (e == Fallthrough && Leads(body, r, Breaks))
  }

  ghost predicate Reaches(b: seq<Stmt>, e: Exit) {
    exists r :: Leads(b, r, e)
  }

  ghost predicate ReachesFrom(st: Stmt, e: Exit)
    requires IsCompound(st)
  {
    exists r :: Within(st, true, r, e) || Within(st, false, r, e)
  }

  /* ---- The exits of a list, by index ---- */

  // The statement at i contributes its exits.
  predicate Contributes(b: seq<Stmt>, i: nat) {
    i < |b| && OpenBefore(b, i) && (IsJump(b[i]) || IsCompound(b[i]))
  }

  lemma {:induction false} CollectedAt(b: seq<Stmt>, e: Exit)
    ensures e in CollectedExits(b) <==> exists i: nat :: Contributes(b, i) && e in StmtExits(b[i])
    decreases |b|
  {
    if b != [] {
      CollectedAt(b[1..], e);
      if i: nat :| Contributes(b[1..], i) && e in StmtExits(b[1..][i]) {
        if !IsCloser(b[0]) {
          assert Contributes(b, i + 1) by {
            forall j | 0 <= j < i + 1 ensures !IsCloser(b[j]) {
              assert j > 0 ==> b[j] == b[1..][j - 1];
            }
          }
        }
      }
      if i: nat :| Contributes(b, i) && e in StmtExits(b[i]) {
        if i > 0 {
          assert !IsCloser(b[0]);
          assert Contributes(b[1..], i - 1) by {
            forall j | 0 <= j < i - 1 ensures !IsCloser(b[1..][j]) {
              assert b[1..][j] == b[j + 1];
            }
          }
        }
      }
      assert Contributes(b, 0) <==> IsJump(b[0]) || IsCompound(b[0]);
    }
  }

  lemma {:induction false} SomeExit(b: seq<Stmt>)
    ensures BodyExits(b) != {}
  {
  }

  lemma CompoundHasExit(st: Stmt)
    requires IsCompound(st)
    ensures StmtExits(st) != {}
  {
    if st.If? {
      SomeExit(st.thenBody);
    } else {
      SomeExit(st.orelse);
    }
  }

  // Nothing contributes exactly where nothing branches or jumps.
  lemma NothingCollected(b: seq<Stmt>)
    ensures CollectedExits(b) == {} <==> forall i :: 0 <= i < |b| ==> !IsJump(b[i]) && !IsCompound(b[i])
  {
    if i: nat :| i < |b| && (IsJump(b[i]) || IsCompound(b[i])) {
      var k := FirstEnd(b, i);
      if IsCompound(b[k]) {
        CompoundHasExit(b[k]);
      }
      var e :| e in StmtExits(b[k]);
      CollectedAt(b, e);
    }
    if CollectedExits(b) != {} {
      var e :| e in CollectedExits(b);
      CollectedAt(b, e);
    }
  }

  lemma {:induction false} FirstEnd(b: seq<Stmt>, i: nat) returns (k: nat)
    requires i < |b| && (IsJump(b[i]) || IsCompound(b[i]))
    ensures Contributes(b, k)
    decreases i
  {
    if j: nat :| j < i && (IsJump(b[j]) || IsCompound(b[j])) {
      k := FirstEnd(b, j);
    } else {
      k := i;
    }
  }

  /* ---- Exits are routes ---- */

  /** An exit is listed for a body exactly when a route leads to it. */
  lemma {:induction false} BodyRoutes(b: seq<Stmt>, e: Exit)
    ensures e in BodyExits(b) <==> Reaches(b, e)
    decreases b, 3
  {
    NothingCollected(b);
    CollectedAt(b, e);
    if e in BodyExits(b) {
      if CollectedExits(b) == {} {
        assert Leads(b, Level, e);
      } else {
        var i: nat :| Contributes(b, i) && e in StmtExits(b[i]);
        var past := PassesOf(b, i);
        if IsJump(b[i]) {
          assert Leads(b, Jump(past), e);
        } else {
          var first, r := RouteWithin(b[i], e);
          assert Leads(b, Into(past, first, r), e);
        }
      }
    }
    if Reaches(b, e) {
      var r :| Leads(b, r, e);
      LeadsSound(b, r, e);
    }
  }

  lemma {:induction false} PassesOf(b: seq<Stmt>, i: nat) returns (past: seq<Pass>)
    requires i < |b| && OpenBefore(b, i)
    ensures |past| == i && PassesAll(b, past)
    decreases b, 2, i
  {
    if i == 0 {
      past := [];
    } else {
      past := PassesOf(b, i - 1);
      assert !IsCloser(b[i - 1]);
      if IsCompound(b[i - 1]) {
        var first, r := RouteWithin(b[i - 1], Fallthrough);
        assert Passes(b[i - 1], By(first, r));
        past := past + [By(first, r)];
      } else {
        assert Passes(b[i - 1], Straight);
        past := past + [Straight];
      }
    }
  }

  // A route only leads to an exit that is listed.
  lemma {:induction false} LeadsSound(b: seq<Stmt>, r: Route, e: Exit)
    requires Leads(b, r, e)
    ensures e in BodyExits(b)
    decreases b, 1
  {
    NothingCollected(b);
    CollectedAt(b, e);
    if !r.Level? {
      var i := |r.past|;
      forall j | 0 <= j < i ensures !IsCloser(b[j]) {
        assert Passes(b[j], r.past[j]);
        if r.past[j].By? {
          WithinSound(b[j], r.past[j].first, r.past[j].route, Fallthrough);
        }
      }
      if r.Into? {
        WithinSound(b[i], r.first, r.rest, e);
      }
      assert Contributes(b, i) && e in StmtExits(b[i]);
    }
  }

  lemma {:induction false} WithinSound(st: Stmt, first: bool, r: Route, e: Exit)
    requires IsCompound(st) && Within(st, first, r, e)
    ensures e in StmtExits(st)
    decreases st, 1
  {
    if st.If? {
      LeadsSound(if first then st.thenBody else st.elseBody, r, e);
    } else if !first {
      LeadsSound(st.orelse, r, e);
    } else if Leads(st.body, r, e) {
      LeadsSound(st.body, r, e);
    }
    if IsLoop(st) && first && Leads(st.body, r, Breaks) {
      LeadsSound(st.body, r, Breaks);
    }
  }

  /** The same for a conditional or a loop. */
  lemma StmtRoutes(st: Stmt, e: Exit)
    requires IsCompound(st)
    ensures e in StmtExits(st) <==> ReachesFrom(st, e)
  {
    if e in StmtExits(st) {
      var first, r := RouteWithin(st, e);
      assert Within(st, true, r, e) || Within(st, false, r, e);
    }
    if ReachesFrom(st, e) {
      var r :| Within(st, true, r, e) || Within(st, false, r, e);
      WithinSound(st, Within(st, true, r, e), r, e);
    }
  }

  lemma {:induction false} RouteWithin(st: Stmt, e: Exit) returns (first: bool, r: Route)
    requires IsCompound(st) && e in StmtExits(st)
    ensures Within(st, first, r, e)
    decreases st, 3
  {
    if st.If? {
      BodyRoutes(st.thenBody, e);
      BodyRoutes(st.elseBody, e);
      first := e in BodyExits(st.thenBody);
      r :| Leads(if first then st.thenBody else st.elseBody, r, e);
    } else if e in BodyExits(st.orelse) {
      BodyRoutes(st.orelse, e);
      first := false;
      r :| Leads(st.orelse, r, e);
    } else {
      first := true;
      var inner := if e in BodyExits(st.body) && (e == Fallthrough || e == Returns) then e else Breaks;
      BodyRoutes(st.body, inner);
      r :| Leads(st.body, r, inner);
    }
  }

  /* ---- What closes a list ---- */

  // A jump, or a conditional or loop that no route leads past.
  ghost predicate Closes(st: Stmt) {
    IsJump(st) || (IsCompound(st) && !ReachesFrom(st, Fallthrough))
  }

  // Some route leads out of the statement by a jump.
  ghost predicate JumpsOut(st: Stmt) {
    IsJump(st) || (IsCompound(st) && exists e :: e != Fallthrough && ReachesFrom(st, e))
  }

  lemma ClosesExactly(st: Stmt)
    ensures IsCloser(st) <==> Closes(st)
  {
    if IsCompound(st) {
      StmtRoutes(st, Fallthrough);
    }
  }

  lemma JumpsOutExactly(st: Stmt)
    ensures ValidPostExit(st) <==> !JumpsOut(st)
  {
    if IsCompound(st) {
      CompoundHasExit(st);
      forall e ensures e in StmtExits(st) <==> ReachesFrom(st, e) {
        StmtRoutes(st, e);
      }
      if StmtExits(st) != {Fallthrough} {
        var e :| e in StmtExits(st) && (e != Fallthrough || StmtExits(st) == {e});
      }
    }
  }

  /** A list has a closer exactly when one of its statements is a jump, or has no route
      past it. */
  lemma {:induction false} CloserExactly(b: seq<Stmt>)
    ensures HasCloser(b) <==> exists i :: 0 <= i < |b| && Closes(b[i])
    decreases |b|
  {
    if b != [] {
      ClosesExactly(b[0]);
      CloserExactly(b[1..]);
      if i :| 0 <= i < |b| && Closes(b[i]) {
        assert i > 0 ==> Closes(b[1..][i - 1]);
      }
      if i :| 0 <= i < |b[1..]| && Closes(b[1..][i]) {
        assert Closes(b[i + 1]);
      }
    }
  }

  /** It is rejected exactly when something after a closing statement has a route that
      jumps out of the list. */
  lemma {:induction false} RejectedExactly(b: seq<Stmt>)
    ensures !WellClosed(b) <==> exists i, j :: 0 <= i < j < |b| && Closes(b[i]) && JumpsOut(b[j])
    decreases |b|
  {
    if b != [] {
      ClosesExactly(b[0]);
      RejectedExactly(b[1..]);
      forall j | 0 <= j < |b| ensures ValidPostExit(b[j]) <==> !JumpsOut(b[j]) {
        JumpsOutExactly(b[j]);
      }
      if i, j :| 0 <= i < j < |b| && Closes(b[i]) && JumpsOut(b[j]) {
        assert !ValidPostExit(b[1..][j - 1]);
        assert i > 0 ==> Closes(b[1..][i - 1]) && JumpsOut(b[1..][j - 1]);
      }
      if IsCloser(b[0]) && !AllValidPostExit(b[1..]) {
        var j :| 0 <= j < |b[1..]| && !ValidPostExit(b[1..][j]);
        assert Closes(b[0]) && JumpsOut(b[j + 1]);
      }
      if i, j :| 0 <= i < j < |b[1..]| && Closes(b[1..][i]) && JumpsOut(b[1..][j]) {
        assert Closes(b[i + 1]) && JumpsOut(b[j + 1]);
      }
    }
  }

  /** The exits of a function: its body's, with falling off the end as a return. */
  lemma FunctionRoutes(b: seq<Stmt>, e: Exit)
    ensures e in FunctionExits(b) <==>
            e != Fallthrough && (Reaches(b, e) || (e == Returns && Reaches(b, Fallthrough)))
  {
    BodyRoutes(b, e);
    BodyRoutes(b, Fallthrough);
  }
}
