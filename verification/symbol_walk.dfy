/** What collect_symbols finds, told by the occurrences of names in the order of its
    walk, without its state. */
module SymbolWalk {
  import opened Options
  import opened Symbols

  /* What the walk meets: the beginning of a statement that checks its own reads, a
     read, the name of a target with the adapter it would get, and a target of a form
     that is refused. */
  datatype Event = Begins | Reads(name: Name, own: bool) | Marks(name: Name, adapter: Adapter) | Refused

  /* ---- The walk ---- */

  function NameEvents(names: seq<Name>, own: bool): seq<Event> {
    if names == [] then [] else NameEvents(names[..|names| - 1], own) + [Reads(names[|names| - 1], own)]
  }

  function TargetEvents(t: Target, loop: bool): seq<Event>
    decreases t
  {
    match t
    case Named(x, a) => [Marks(x, a)]
    case TupleOf(elements) => TargetsEvents(elements, loop)
    case ListOf => [Refused]
    case Elsewhere(_) => if loop then [Refused] else []
  }

  function TargetsEvents(ts: seq<Target>, loop: bool): seq<Event>
    decreases ts
  {
    if ts == [] then [] else TargetEvents(ts[0], loop) + TargetsEvents(ts[1..], loop)
  }

  function DeletedEvent(t: Target): seq<Event>
    decreases t
  {
    match t
    case Named(x, _) => [Reads(x, false)]
    case TupleOf(elements) => DeletedEvents(elements)
    case ListOf => []
    case Elsewhere(names) => NameEvents(names, false)
  }

  function DeletedEvents(ts: seq<Target>): seq<Event>
    decreases ts
  {
    if ts == [] then [] else DeletedEvent(ts[0]) + DeletedEvents(ts[1..])
  }

  // Targets come before the value, and a loop's target before its iterable.
  function StmtEvents(st: Stmt): seq<Event>
    decreases st
  {
    match st
    case Assign(targets, names) => [Begins] + TargetsEvents(targets, false) + NameEvents(names, true)
    case Annotated(x, a, valued, names) => [Begins, Marks(x, a)] + if valued then NameEvents(names, true) else []
    case AugAssign(place, names) =>
      (if place.Some? then [Marks(place.value, VA)] else []) + NameEvents(names, false)
    case For(target, names, body, orelse) =>
      TargetEvents(target, true) + NameEvents(names, false) + BodyEvents(body) + BodyEvents(orelse)
    case While(names, body, orelse) => NameEvents(names, false) + BodyEvents(body) + BodyEvents(orelse)
    case If(names, body, orelse) => NameEvents(names, false) + BodyEvents(body) + BodyEvents(orelse)
    case Delete(targets) => DeletedEvents(targets)
    case Other(names) => NameEvents(names, false)
  }

  function BodyEvents(b: seq<Stmt>): seq<Event>
    decreases b
  {
    if b == [] then [] else StmtEvents(b[0]) + BodyEvents(b[1..])
  }

  /* ---- What the occurrences say ---- */

  predicate ReadsAt(ev: seq<Event>, i: nat, x: Name) {
    i < |ev| && ev[i].Reads? && ev[i].name == x
  }

  predicate MarksAt(ev: seq<Event>, i: nat, x: Name) {
    i < |ev| && ev[i].Marks? && ev[i].name == x
  }

  // A read of x with no target of that name before it.
  predicate ReadFirst(ev: seq<Event>, i: nat, x: Name) {
    ReadsAt(ev, i, x) && forall k: nat :: k < i ==> !MarksAt(ev, k, x)
  }

  // x is not a parameter and is read, before n, before it is any target.
  predicate Outside(params: Table, ev: seq<Event>, n: nat, x: Name) {
    !Has(params, x) && exists i: nat :: i < n && ReadFirst(ev, i, x)
  }

  // The first occurrence of a name that is no parameter, as a target.
  predicate DeclaresAt(params: Table, ev: seq<Event>, i: nat) {
    && i < |ev| && ev[i].Marks? && !Has(params, ev[i].name)
    && forall k: nat :: k < i ==> !MarksAt(ev, k, ev[i].name) && !ReadsAt(ev, k, ev[i].name)
  }

  // What is declared before n, in order, with the adapter of the first target.
  function Declared(params: Table, ev: seq<Event>, n: nat): Table
    requires n <= |ev|
  {
    if n == 0 then []
    else
      Declared(params, ev, n - 1)
      + if DeclaresAt(params, ev, n - 1) then [(ev[n - 1].name, ev[n - 1].adapter)] else []
  }

  /* A refused target; a target of a name that is read from outside before; or a read
     by the very statement that declares the name. */
  predicate DiagnosedAt(params: Table, ev: seq<Event>, i: nat) {
    i < |ev|
    && match ev[i]
       case Refused => true
       case Marks(x, _) => Outside(params, ev, i, x)
       case Reads(x, own) => own && StillDeclaring(params, ev, i, x)
       case Begins => false
  }

  // x is declared at j, in the statement that is still going on at i.
  predicate DeclaredBy(params: Table, ev: seq<Event>, j: nat, i: nat, x: Name) {
    j < i <= |ev| && DeclaresAt(params, ev, j) && ev[j].name == x && forall k: nat :: j < k < i ==> !ev[k].Begins?
  }

  predicate StillDeclaring(params: Table, ev: seq<Event>, i: nat, x: Name) {
    exists j: nat :: j < i && DeclaredBy(params, ev, j, i, x)
  }

  /* ---- The collector, one event after the other ---- */

  datatype Played = Played(c: Collected, before: Collected)

  function PlayOne(p: Played, e: Event): Played {
    match e
    case Begins => p.(before := p.c)
    case Reads(x, own) =>
      p.(c := Note(if own && JustDeclared(p.before, p.c, x) then p.c.(ok := false) else p.c, x))
    case Marks(x, a) => p.(c := Mark(p.c, x, a))
    case Refused => p.(c := p.c.(ok := false))
  }

  function Play(p: Played, ev: seq<Event>): Played {
    if ev == [] then p else PlayOne(Play(p, ev[..|ev| - 1]), ev[|ev| - 1])
  }

  lemma {:induction false} PlayBoth(p: Played, a: seq<Event>, b: seq<Event>)
    ensures Play(p, a + b) == Play(Play(p, a), b)
    decreases |b|
  {
    if b == [] {
      assert a + b == a;
    } else {
      assert (a + b)[..|a + b| - 1] == a + b[..|b| - 1];
      PlayBoth(p, a, b[..|b| - 1]);
    }
  }

  lemma PlayEvent(p: Played, e: Event)
    ensures Play(p, [e]) == PlayOne(p, e)
  {
    assert [e][..0] == [];
    assert Play(p, [e][..0]) == p;
  }

  lemma {:induction false} NoteAllLast(c: Collected, names: seq<Name>)
    requires names != []
    ensures NoteAll(c, names) == Note(NoteAll(c, names[..|names| - 1]), names[|names| - 1])
    ensures NoteAll(c, names).variables == c.variables
    decreases |names|
  {
    if |names| > 1 {
      assert names[..|names| - 1][1..] == names[1..][..|names| - 2];
      assert names[1..][|names| - 2] == names[|names| - 1];
      NoteAllLast(Note(c, names[0]), names[1..]);
    } else {
      assert names[..0] == [] && names[1..] == [];
    }
  }

  lemma {:induction false} PlayNames(p: Played, names: seq<Name>)
    ensures Play(p, NameEvents(names, false)) == p.(c := NoteAll(p.c, names))
    decreases |names|
  {
    if names != [] {
      PlayNames(p, names[..|names| - 1]);
      NoteAllLast(p.c, names);
    }
  }

  predicate SomeDeclared(p: Played, names: seq<Name>) {
    exists i :: 0 <= i < |names| && JustDeclared(p.before, p.c, names[i])
  }

  lemma SomeDeclaredLast(p: Played, names: seq<Name>)
    requires names != []
    ensures var n := |names| - 1;
            SomeDeclared(p, names) <==> SomeDeclared(p, names[..n]) || JustDeclared(p.before, p.c, names[n])
  {
    var n := |names| - 1;
    if i :| 0 <= i < n + 1 && JustDeclared(p.before, p.c, names[i]) {
      assert i < n ==> names[..n][i] == names[i];
    }
    if i :| 0 <= i < n && JustDeclared(p.before, p.c, names[..n][i]) {
      assert names[i] == names[..n][i];
    }
  }

  lemma {:induction false} PlayOwnNames(p: Played, names: seq<Name>)
    ensures Play(p, NameEvents(names, true)) == p.(c := AssignNames(p.before, p.c, names))
    decreases |names|
  {
    if names != [] {
      var n := |names| - 1;
      var checked := CheckReads(p.before, p.c, names[..n]);
      PlayOwnNames(p, names[..n]);
      SomeDeclaredLast(p, names);
      NoteKeeps(p.c, names[..n]);
      NoteAllLast(p.c, names);
      NoteKeeps(p.c, names);
      assert Play(p, NameEvents(names, true)) == PlayOne(p.(c := NoteAll(checked, names[..n])), Reads(names[n], true));
    }
  }

  lemma {:induction false} NoteKeeps(c: Collected, names: seq<Name>)
    ensures NoteAll(c, names).variables == c.variables && NoteAll(c, names).ok == c.ok
    ensures NoteAll(c.(ok := false), names) == NoteAll(c, names).(ok := false)
    decreases |names|
  {
    if names != [] {
      NoteKeeps(Note(c, names[0]), names[1..]);
    }
  }

  lemma {:induction false} PlayTarget(p: Played, t: Target, loop: bool)
    ensures Play(p, TargetEvents(t, loop)) == p.(c := MarkTarget(p.c, t, loop))
    decreases t
  {
    match t
    case Named(x, a) => PlayEvent(p, Marks(x, a));
    case TupleOf(elements) => PlayTargets(p, elements, loop);
    case ListOf => PlayEvent(p, Refused);
    case Elsewhere(_) => PlayEvent(p, Refused);
  }

  lemma {:induction false} PlayTargets(p: Played, ts: seq<Target>, loop: bool)
    ensures Play(p, TargetsEvents(ts, loop)) == p.(c := MarkTargets(p.c, ts, loop))
    decreases ts
  {
    if ts != [] {
      PlayTarget(p, ts[0], loop);
      PlayTargets(p.(c := MarkTarget(p.c, ts[0], loop)), ts[1..], loop);
      PlayBoth(p, TargetEvents(ts[0], loop), TargetsEvents(ts[1..], loop));
    }
  }

  function NoteTarget(c: Collected, t: Target): Collected {
    match t
    case Named(x, _) => Note(c, x)
    case TupleOf(elements) => NoteTargets(c, elements)
    case ListOf => c
    case Elsewhere(names) => NoteAll(c, names)
  }

  lemma {:induction false} PlayDeleted(p: Played, ts: seq<Target>)
    ensures Play(p, DeletedEvents(ts)) == p.(c := NoteTargets(p.c, ts))
    decreases ts
  {
    if ts != [] {
      var p' := p.(c := NoteTarget(p.c, ts[0]));
      match ts[0] {
        case Named(x, _) => PlayEvent(p, Reads(x, false));
        case TupleOf(elements) => PlayDeleted(p, elements);
        case ListOf =>
        case Elsewhere(names) => PlayNames(p, names);
      }
      PlayDeleted(p', ts[1..]);
      PlayBoth(p, DeletedEvent(ts[0]), DeletedEvents(ts[1..]));
    }
  }

  // A statement that checks what it reads against what it declares.
  lemma PlayChecked(p: Played, marks: seq<Event>, names: seq<Name>, c': Collected)
    requires Play(p.(before := p.c), marks) == p.(before := p.c, c := c')
    ensures Play(p, [Begins] + marks).c == c'
    ensures Play(p, [Begins] + marks + NameEvents(names, true)).c == AssignNames(p.c, c', names)
  {
    PlayEvent(p, Begins);
    PlayBoth(p, [Begins], marks);
    PlayOwnNames(p.(before := p.c, c := c'), names);
    PlayBoth(p, [Begins] + marks, NameEvents(names, true));
  }

  lemma {:induction false} PlayStmt(p: Played, st: Stmt)
    ensures Play(p, StmtEvents(st)).c == VisitStmt(p.c, st)
    decreases st, 1
  {
    hide NoteAll, MarkTargets, MarkTarget, Mark, AssignNames, Play, NameEvents;
    var begun := p.(before := p.c);
    match st
    case Assign(targets, names) =>
      PlayTargets(begun, targets, false);
      PlayChecked(p, TargetsEvents(targets, false), names, MarkTargets(p.c, targets, false));
    case Annotated(x, a, valued, names) =>
      PlayEvent(begun, Marks(x, a));
      PlayChecked(p, [Marks(x, a)], names, Mark(p.c, x, a));
      assert [Begins] + [Marks(x, a)] == [Begins, Marks(x, a)];
      assert [Begins, Marks(x, a)] + [] == [Begins, Marks(x, a)];
    case AugAssign(place, names) => PlayAug(p, place, names);
    case For(target, names, body, orelse) =>
      PlayTarget(p, target, true);
      var rest := NameEvents(names, false) + BodyEvents(body) + BodyEvents(orelse);
      PlayBodies(p.(c := MarkTarget(p.c, target, true)), st);
      PlayBoth(p, TargetEvents(target, true), rest);
      assert StmtEvents(st) == TargetEvents(target, true) + rest;
    case While(names, body, orelse) => PlayBodies(p, st);
    case If(names, body, orelse) => PlayBodies(p, st);
    case Delete(targets) => PlayDeleted(p, targets);
    case Other(names) => PlayNames(p, names);
  }

  lemma PlayAug(p: Played, place: Option<Name>, names: seq<Name>)
    ensures Play(p, StmtEvents(AugAssign(place, names))).c == VisitStmt(p.c, AugAssign(place, names))
  {
    if place.Some? {
      PlayEvent(p, Marks(place.value, VA));
      PlayNames(PlayOne(p, Marks(place.value, VA)), names);
      PlayBoth(p, [Marks(place.value, VA)], NameEvents(names, false));
    } else {
      PlayNames(p, names);
      assert [] + NameEvents(names, false) == NameEvents(names, false);
    }
  }

  lemma {:induction false} PlayBodies(p: Played, st: Stmt)
    requires st.For? || st.While? || st.If?
    ensures Play(p, NameEvents(st.names, false) + BodyEvents(st.body) + BodyEvents(st.orelse)).c
         == VisitBody(VisitBody(NoteAll(p.c, st.names), st.body), st.orelse)
    decreases st, 0
  {
    var first := NameEvents(st.names, false);
    PlayNames(p, st.names);
    PlayBoth(p, first, BodyEvents(st.body));
    PlayBoth(p, first + BodyEvents(st.body), BodyEvents(st.orelse));
    PlayBody(Play(p, first), st.body);
    PlayBody(Play(p, first + BodyEvents(st.body)), st.orelse);
  }

  lemma {:induction false} PlayBody(p: Played, b: seq<Stmt>)
    ensures Play(p, BodyEvents(b)).c == VisitBody(p.c, b)
    decreases b, 2
  {
    if b != [] {
      PlayStmt(p, b[0]);
      PlayBody(Play(p, StmtEvents(b[0])), b[1..]);
      PlayBoth(p, StmtEvents(b[0]), BodyEvents(b[1..]));
    }
  }

  /* ---- What the collector holds, by occurrences ---- */

  lemma {:induction false} HasDeclared(params: Table, ev: seq<Event>, n: nat, x: Name)
    requires n <= |ev|
    ensures Has(params + Declared(params, ev, n), x) <==>
            Has(params, x) || exists j: nat :: j < n && DeclaresAt(params, ev, j) && ev[j].name == x
    decreases n
  {
    if n == 0 {
      assert params + [] == params;
    } else {
      HasDeclared(params, ev, n - 1, x);
      var t := params + Declared(params, ev, n - 1);
      if DeclaresAt(params, ev, n - 1) {
        HasAdded(t, ev[n - 1].name, ev[n - 1].adapter, x);
        assert params + Declared(params, ev, n) == t + [(ev[n - 1].name, ev[n - 1].adapter)];
      } else {
        assert params + Declared(params, ev, n) == t;
      }
    }
  }

  // The first occurrence of a name either declares it, or reads it from outside.
  lemma {:induction false} FirstMention(params: Table, ev: seq<Event>, n: nat, k: nat, x: Name)
    requires k < n <= |ev| && !Has(params, x) && (MarksAt(ev, k, x) || ReadsAt(ev, k, x))
    ensures Outside(params, ev, n, x) || exists j: nat :: j < n && DeclaresAt(params, ev, j) && ev[j].name == x
    decreases k
  {
    if j: nat :| j < k && (MarksAt(ev, j, x) || ReadsAt(ev, j, x)) {
      FirstMention(params, ev, n, j, x);
    } else if MarksAt(ev, k, x) {
      assert DeclaresAt(params, ev, k);
    } else {
      assert ReadFirst(ev, k, x);
    }
  }

  ghost predicate Told(params: Table, ev: seq<Event>, n: nat, p: Played)
    requires n <= |ev|
  {
    && p.c.variables == params + Declared(params, ev, n)
    && (forall x :: x in p.c.globals <==> Outside(params, ev, n, x))
    && (p.c.ok <==> forall i: nat :: i < n ==> !DiagnosedAt(params, ev, i))
    && (forall x :: JustDeclared(p.before, p.c, x) <==> StillDeclaring(params, ev, n, x))
    && p.before.variables <= p.c.variables
  }

  lemma OutsideNext(params: Table, ev: seq<Event>, n: nat, x: Name)
    requires n < |ev|
    ensures Outside(params, ev, n + 1, x) <==>
            Outside(params, ev, n, x) || (!Has(params, x) && ReadFirst(ev, n, x))
  {
  }

  lemma DeclaredByNext(params: Table, ev: seq<Event>, n: nat, x: Name)
    requires n < |ev|
    ensures StillDeclaring(params, ev, n + 1, x) <==>
            (!ev[n].Begins? && StillDeclaring(params, ev, n, x)) || (DeclaresAt(params, ev, n) && ev[n].name == x)
  {
    if StillDeclaring(params, ev, n + 1, x) {
      var j: nat :| j < n + 1 && DeclaredBy(params, ev, j, n + 1, x);
      assert j < n ==> DeclaredBy(params, ev, j, n, x);
    }
    if StillDeclaring(params, ev, n, x) && !ev[n].Begins? {
      var j: nat :| j < n && DeclaredBy(params, ev, j, n, x);
      assert DeclaredBy(params, ev, j, n + 1, x);
    }
    if DeclaresAt(params, ev, n) && ev[n].name == x {
      assert DeclaredBy(params, ev, n, n + 1, x);
    }
  }

  // Whether a name is known when an event comes.
  lemma Known(params: Table, ev: seq<Event>, n: nat, p: Played, x: Name)
    requires n < |ev| && Told(params, ev, n, p)
    ensures Has(p.c.variables, x) || x in p.c.globals
            <==> Has(params, x) || exists k: nat :: k < n && (MarksAt(ev, k, x) || ReadsAt(ev, k, x))
    ensures Has(p.c.variables, x) && !Has(params, x) ==> exists k: nat :: k < n && MarksAt(ev, k, x)
  {
    HasDeclared(params, ev, n, x);
    if k: nat :| k < n && (MarksAt(ev, k, x) || ReadsAt(ev, k, x)) && !Has(params, x) {
      FirstMention(params, ev, n, k, x);
    }
    if j: nat :| j < n && DeclaresAt(params, ev, j) && ev[j].name == x {
      assert MarksAt(ev, j, x);
    }
    if x in p.c.globals {
      var i: nat :| i < n && ReadFirst(ev, i, x);
      assert ReadsAt(ev, i, x);
    }
  }

  lemma TellRead(params: Table, ev: seq<Event>, n: nat, p: Played)
    requires n < |ev| && Told(params, ev, n, p) && ev[n].Reads?
    ensures Told(params, ev, n + 1, PlayOne(p, ev[n]))
  {
    var x, p' := ev[n].name, PlayOne(p, ev[n]);
    Known(params, ev, n, p, x);
    HasDeclared(params, ev, n, x);
    assert Declared(params, ev, n + 1) == Declared(params, ev, n);
    forall y ensures y in p'.c.globals <==> Outside(params, ev, n + 1, y) {
      OutsideNext(params, ev, n, y);
    }
    forall y ensures JustDeclared(p'.before, p'.c, y) <==> StillDeclaring(params, ev, n + 1, y) {
      DeclaredByNext(params, ev, n, y);
    }
    assert DiagnosedAt(params, ev, n) <==> ev[n].own && JustDeclared(p.before, p.c, x);
    OneMore(params, ev, n);
  }

  lemma OneMore(params: Table, ev: seq<Event>, n: nat)
    ensures (forall i: nat :: i < n + 1 ==> !DiagnosedAt(params, ev, i))
       <==> (forall i: nat :: i < n ==> !DiagnosedAt(params, ev, i)) && !DiagnosedAt(params, ev, n)
  {
  }

  lemma TellMark(params: Table, ev: seq<Event>, n: nat, p: Played)
    requires n < |ev| && Told(params, ev, n, p) && ev[n].Marks?
    ensures Told(params, ev, n + 1, PlayOne(p, ev[n]))
  {
    var x, a, p' := ev[n].name, ev[n].adapter, PlayOne(p, ev[n]);
    Known(params, ev, n, p, x);
    MarkIsDeclaration(params, ev, n, p);
    assert p'.c.variables == params + Declared(params, ev, n + 1);
    forall y ensures y in p'.c.globals <==> Outside(params, ev, n + 1, y) {
      OutsideNext(params, ev, n, y);
    }
    forall y ensures JustDeclared(p'.before, p'.c, y) <==> StillDeclaring(params, ev, n + 1, y) {
      DeclaredByNext(params, ev, n, y);
      if DeclaresAt(params, ev, n) {
        AddDeclares(p.before, p.c, x, a);
      }
    }
    OneMore(params, ev, n);
  }

  lemma MarkIsDeclaration(params: Table, ev: seq<Event>, n: nat, p: Played)
    requires n < |ev| && Told(params, ev, n, p) && ev[n].Marks?
    ensures DeclaresAt(params, ev, n) <==> ev[n].name !in p.c.globals && !Has(p.c.variables, ev[n].name)
    ensures Mark(p.c, ev[n].name, ev[n].adapter).variables == params + Declared(params, ev, n + 1)
  {
    Known(params, ev, n, p, ev[n].name);
    HasDeclared(params, ev, n, ev[n].name);
  }

  lemma TellOther(params: Table, ev: seq<Event>, n: nat, p: Played)
    requires n < |ev| && Told(params, ev, n, p) && (ev[n].Begins? || ev[n].Refused?)
    ensures Told(params, ev, n + 1, PlayOne(p, ev[n]))
  {
    var p' := PlayOne(p, ev[n]);
    assert Declared(params, ev, n + 1) == Declared(params, ev, n);
    forall y ensures y in p'.c.globals <==> Outside(params, ev, n + 1, y) {
      OutsideNext(params, ev, n, y);
    }
    forall y ensures JustDeclared(p'.before, p'.c, y) <==> StillDeclaring(params, ev, n + 1, y) {
      DeclaredByNext(params, ev, n, y);
    }
    OneMore(params, ev, n);
  }

  lemma {:induction false} TellAll(params: Table, ev: seq<Event>, n: nat)
    requires n <= |ev|
    ensures var c := Collected(params, {}, true); Told(params, ev, n, Play(Played(c, c), ev[..n]))
    decreases n
  {
    var c := Collected(params, {}, true);
    if n == 0 {
      assert params + [] == params;
    } else {
      TellAll(params, ev, n - 1);
      var p := Play(Played(c, c), ev[..n - 1]);
      assert ev[..n][..n - 1] == ev[..n - 1];
      match ev[n - 1]
      case Reads(_, _) => TellRead(params, ev, n - 1, p);
      case Marks(_, _) => TellMark(params, ev, n - 1, p);
      case _ => TellOther(params, ev, n - 1, p);
    }
  }

  /** What collect_symbols returns and whether it issues a diagnostic, by occurrences:
      the variables are the parameters and then the names whose first occurrence is as
      a target, in that order, with the adapter of that target; the globals are the
      names read before they are any target; and it is free of diagnostics exactly
      when no occurrence gives one. */
  lemma CollectedExactly(params: Table, b: seq<Stmt>)
    ensures var c, ev := CollectSymbols(params, b), BodyEvents(b);
            && c.variables == params + Declared(params, ev, |ev|)
            && (forall x :: x in c.globals <==> !Has(params, x) && exists i: nat :: ReadFirst(ev, i, x))
            && (!c.ok <==> exists i: nat :: DiagnosedAt(params, ev, i))
  {
    var c0, ev := Collected(params, {}, true), BodyEvents(b);
    PlayBody(Played(c0, c0), b);
    TellAll(params, ev, |ev|);
    assert ev[..|ev|] == ev;
    var c := CollectSymbols(params, b);
    forall x ensures x in c.globals <==> !Has(params, x) && exists i: nat :: ReadFirst(ev, i, x) {
      assert x in c.globals <==> Outside(params, ev, |ev|, x);
    }
  }
}
