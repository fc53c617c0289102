/** The two ways the compiler lists a function's variables: collect_symbols of
    src/natsune/frontend/symbols.py on the Python source, and collect_variables of
    src/natsune/backend/lowering.py on the IR built from it. */
module Symbols {
  import opened Options

  type Name = string
  type Adapter = int

  // The adapter of a plain value.
  const VA: Adapter := 0

  // A dict in insertion order.
  type Table = seq<(Name, Adapter)>

  predicate Has(t: Table, x: Name) {
    exists i :: 0 <= i < |t| && t[i].0 == x
  }

  function Lookup(t: Table, x: Name): Option<Adapter> {
    if t == [] then None else if t[0].0 == x then Some(t[0].1) else Lookup(t[1..], x)
  }

  function SetDefault(t: Table, x: Name, a: Adapter): Table {
    if Has(t, x) then t else t + [(x, a)]
  }

  predicate Keyed(t: Table) {
    forall i, j :: 0 <= i < j < |t| ==> t[i].0 != t[j].0
  }

  /* ---- The source: statements, with the names their expressions mention ---- */

  // A name carries the adapter inferred for it; Elsewhere is an attribute or a
  // subscript, with the names inside.
  datatype Target =
    | Named(name: Name, adapter: Adapter)
    | TupleOf(elements: seq<Target>)
    | ListOf
    | Elsewhere(names: seq<Name>)

  // An augmented assignment to anything but a name has no place here.
  datatype Stmt =
    | Assign(targets: seq<Target>, names: seq<Name>)
    | Annotated(name: Name, adapter: Adapter, valued: bool, names: seq<Name>)
    | AugAssign(place: Option<Name>, names: seq<Name>)
    | For(target: Target, names: seq<Name>, body: seq<Stmt>, orelse: seq<Stmt>)
    | While(names: seq<Name>, body: seq<Stmt>, orelse: seq<Stmt>)
    | If(names: seq<Name>, body: seq<Stmt>, orelse: seq<Stmt>)
    | Delete(targets: seq<Target>)
    | Other(names: seq<Name>)

  /* ---- collect_symbols ---- */

  // `ok` goes down with the first diagnostic.
  datatype Collected = Collected(variables: Table, globals: set<Name>, ok: bool)

  function Note(c: Collected, x: Name): Collected {
    if Has(c.variables, x) then c else c.(globals := c.globals + {x})
  }

  function NoteAll(c: Collected, names: seq<Name>): Collected
    decreases |names|
  {
    if names == [] then c else NoteAll(Note(c, names[0]), names[1..])
  }

  function Mark(c: Collected, x: Name, a: Adapter): Collected {
    if x in c.globals then c.(ok := false) else c.(variables := SetDefault(c.variables, x, a))
  }

  // Every name in a deleted expression is noted.
  function NoteTargets(c: Collected, ts: seq<Target>): Collected
    decreases ts
  {
    if ts == [] then c
    else
      var c' := match ts[0]
                case Named(x, _) => Note(c, x)
                case TupleOf(elements) => NoteTargets(c, elements)
                case ListOf => c
                case Elsewhere(names) => NoteAll(c, names);
      NoteTargets(c', ts[1..])
  }

  // A loop target must be made of names and tuples.
  function MarkTarget(c: Collected, t: Target, loop: bool): Collected
    decreases t
  {
    match t
    case Named(x, a) => Mark(c, x, a)
    case TupleOf(elements) => MarkTargets(c, elements, loop)
    case ListOf => c.(ok := false)
    case Elsewhere(_) => if loop then c.(ok := false) else c
  }

  function MarkTargets(c: Collected, ts: seq<Target>, loop: bool): Collected
    decreases ts
  {
    if ts == [] then c else MarkTargets(MarkTarget(c, ts[0], loop), ts[1..], loop)
  }

  // Which names the statement itself has just declared.
  predicate JustDeclared(before: Collected, c: Collected, x: Name) {
    Has(c.variables, x) && !Has(before.variables, x)
  }

  // The value of an assignment must not read what the assignment declares.
  function CheckReads(before: Collected, c: Collected, names: seq<Name>): Collected {
    if exists i :: 0 <= i < |names| && JustDeclared(before, c, names[i]) then c.(ok := false) else c
  }

  function AssignNames(before: Collected, c: Collected, names: seq<Name>): Collected {
    NoteAll(CheckReads(before, c, names), names)
  }

  function VisitStmt(c: Collected, st: Stmt): Collected
    decreases st
  {
    match st
    case Assign(targets, names) => AssignNames(c, MarkTargets(c, targets, false), names)
    case Annotated(x, a, valued, names) => if valued then AssignNames(c, Mark(c, x, a), names) else Mark(c, x, a)
    case AugAssign(place, names) => NoteAll(if place.Some? then Mark(c, place.value, VA) else c, names)
    case For(target, names, body, orelse) =>
      VisitBody(VisitBody(NoteAll(MarkTarget(c, target, true), names), body), orelse)
    case While(names, body, orelse) => VisitBody(VisitBody(NoteAll(c, names), body), orelse)
    case If(names, body, orelse) => VisitBody(VisitBody(NoteAll(c, names), body), orelse)
    case Delete(targets) => NoteTargets(c, targets)
    case Other(names) => NoteAll(c, names)
  }

  function VisitBody(c: Collected, b: seq<Stmt>): Collected
    decreases b
  {
    if b == [] then c else VisitBody(VisitStmt(c, b[0]), b[1..])
  }

  function CollectSymbols(params: Table, b: seq<Stmt>): Collected {
    VisitBody(Collected(params, {}, true), b)
  }

  lemma AddDeclares(before: Collected, c: Collected, x: Name, a: Adapter)
    requires !Has(c.variables, x) && before.variables <= c.variables
    ensures var c' := c.(variables := c.variables + [(x, a)]);
            forall y :: JustDeclared(before, c', y) <==> JustDeclared(before, c, y) || y == x
  {
    var t' := c.variables + [(x, a)];
    forall y ensures Has(t', y) <==> Has(c.variables, y) || y == x {
      HasAdded(c.variables, x, a, y);
    }
    if Has(before.variables, x) {
      HasPrefix(before.variables, c.variables, x);
    }
  }

  lemma HasAdded(t: Table, x: Name, a: Adapter, y: Name)
    ensures Has(t + [(x, a)], y) <==> Has(t, y) || y == x
  {
    var t' := t + [(x, a)];
    if i :| 0 <= i < |t| && t[i].0 == y {
      assert t'[i].0 == y;
    }
    assert t'[|t|].0 == x;
  }

  /** SymbolsCollector: the walk updates its fields in place. */
  class SymbolsCollector {
    var variables: Table
    var usedAsGlobals: set<Name>
    var ok: bool

    ghost function State(): Collected
      reads this
    {
      Collected(variables, usedAsGlobals, ok)
    }

    constructor (params: Table)
      ensures State() == Collected(params, {}, true)
    {
      variables, usedAsGlobals, ok := params, {}, true;
    }

    method NoteName(x: Name)
      modifies this
      ensures State() == Note(old(State()), x)
    {
      if !Has(variables, x) {
        usedAsGlobals := usedAsGlobals + {x};
      }
    }

    method NoteNames(names: seq<Name>)
      modifies this
      ensures State() == NoteAll(old(State()), names)
    {
      var i := 0;
      while i < |names|
        invariant 0 <= i <= |names|
        invariant NoteAll(old(State()), names) == NoteAll(State(), names[i..])
      {
        assert names[i..][0] == names[i] && names[i..][1..] == names[i + 1..];
        NoteName(names[i]);
        i := i + 1;
      }
    }

    // The names declared since `before` are added to the set.
    ghost predicate Lists(declared: set<Name>, before: Collected)
      reads this
    {
      before.variables <= variables && forall x :: x in declared <==> JustDeclared(before, State(), x)
    }

    method MarkName(x: Name, a: Adapter, justDeclared: set<Name>, ghost before: Collected) returns (declared: set<Name>)
      requires Lists(justDeclared, before)
      modifies this
      ensures State() == Mark(old(State()), x, a) && Lists(declared, before)
    {
      declared := justDeclared;
      if x in usedAsGlobals {
        ok := false;
        return;
      }
      if !Has(variables, x) {
        AddDeclares(before, State(), x, a);
        variables := variables + [(x, a)];
        declared := declared + {x};
      }
    }

    method MarkTargetExpr(t: Target, loop: bool, justDeclared: set<Name>, ghost before: Collected)
      returns (declared: set<Name>)
      requires Lists(justDeclared, before)
      modifies this
      ensures State() == MarkTarget(old(State()), t, loop) && Lists(declared, before)
      decreases t
    {
      declared := justDeclared;
      match t {
        case Named(x, a) => declared := MarkName(x, a, justDeclared, before);
        case TupleOf(elements) => declared := MarkTargetExprs(elements, loop, justDeclared, before);
        case ListOf => ok := false;
        case Elsewhere(_) => ok := ok && !loop;
      }
    }

    method MarkTargetExprs(ts: seq<Target>, loop: bool, justDeclared: set<Name>, ghost before: Collected)
      returns (declared: set<Name>)
      requires Lists(justDeclared, before)
      modifies this
      ensures State() == MarkTargets(old(State()), ts, loop) && Lists(declared, before)
      decreases ts
    {
      declared := justDeclared;
      var i := 0;
      while i < |ts|
        invariant 0 <= i <= |ts|
        invariant MarkTargets(old(State()), ts, loop) == MarkTargets(State(), ts[i..], loop)
        invariant Lists(declared, before)
      {
        assert ts[i..][0] == ts[i] && ts[i..][1..] == ts[i + 1..];
        declared := MarkTargetExpr(ts[i], loop, declared, before);
        i := i + 1;
      }
    }

    // Read of variable before assignment.
    method CheckNames(names: seq<Name>, justDeclared: set<Name>, ghost before: Collected)
      requires Lists(justDeclared, before)
      modifies this`ok
      ensures State() == CheckReads(before, old(State()), names)
    {
      var i := 0;
      while i < |names|
        invariant 0 <= i <= |names|
        invariant State() == old(State())
        invariant forall j :: 0 <= j < i ==> !JustDeclared(before, State(), names[j])
      {
        if names[i] in justDeclared {
          ok := false;
          return;
        }
        i := i + 1;
      }
    }

    method NoteTargetExprs(ts: seq<Target>)
      modifies this
      ensures State() == NoteTargets(old(State()), ts)
      decreases ts
    {
      var i := 0;
      while i < |ts|
        invariant 0 <= i <= |ts|
        invariant NoteTargets(old(State()), ts) == NoteTargets(State(), ts[i..])
      {
        assert ts[i..][0] == ts[i] && ts[i..][1..] == ts[i + 1..];
        match ts[i] {
          case Named(x, _) => NoteName(x);
          case TupleOf(elements) => NoteTargetExprs(elements);
          case ListOf =>
          case Elsewhere(names) => NoteNames(names);
        }
        i := i + 1;
      }
    }

    method Visit(st: Stmt)
      modifies this
      ensures State() == VisitStmt(old(State()), st)
      decreases st
    {
      ghost var before := State();
      var declared := {};
      match st {
        case Assign(targets, names) =>
          declared := MarkTargetExprs(targets, false, {}, before);
          CheckNames(names, declared, before);
          NoteNames(names);
        case Annotated(x, a, valued, names) =>
          declared := MarkName(x, a, {}, before);
          if valued {
            CheckNames(names, declared, before);
            NoteNames(names);
          }
        case AugAssign(place, names) =>
          if place.Some? {
            declared := MarkName(place.value, VA, {}, before);
          }
          NoteNames(names);
        case For(target, names, body, orelse) =>
          declared := MarkTargetExpr(target, true, {}, before);
          NoteNames(names);
          VisitAll(body);
          VisitAll(orelse);
        case While(names, body, orelse) => NoteNames(names); VisitAll(body); VisitAll(orelse);
        case If(names, body, orelse) => NoteNames(names); VisitAll(body); VisitAll(orelse);
        case Delete(targets) => NoteTargetExprs(targets);
        case Other(names) => NoteNames(names);
      }
    }

    method VisitAll(b: seq<Stmt>)
      modifies this
      ensures State() == VisitBody(old(State()), b)
      decreases b
    {
      var i := 0;
      while i < |b|
        invariant 0 <= i <= |b|
        invariant VisitBody(old(State()), b) == VisitBody(State(), b[i..])
      {
        assert b[i..][0] == b[i] && b[i..][1..] == b[i + 1..];
        Visit(b[i]);
        i := i + 1;
      }
    }
  }

  /* ---- build_ir, as far as targets go ---- */

  datatype IrTarget = IrName(name: Name, adapter: Adapter) | IrTuple(elements: seq<IrTarget>) | IrDynamic

  datatype IrStmt =
    | IrAssign(targets: seq<IrTarget>)
    | IrFor(target: IrTarget, body: seq<IrStmt>, orelse: seq<IrStmt>)
    | IrBranches(body: seq<IrStmt>, orelse: seq<IrStmt>)
    | IrDelete(values: seq<IrTarget>)
    | IrOther

  // What is built, and whether a diagnostic was issued on the way.
  datatype Built<T> = Built(node: T, ok: bool)

  function BuildName(table: Collected, x: Name): Built<seq<IrTarget>> {
    if x in table.globals then Built([], false)
    else Built([IrName(x, if Lookup(table.variables, x).Some? then Lookup(table.variables, x).value else VA)], true)
  }

  function BuildTarget(table: Collected, t: Target): Built<seq<IrTarget>>
    decreases t
  {
    match t
    case Named(x, _) => BuildName(table, x)
    case TupleOf(elements) => var built := BuildTargets(table, elements); Built([IrTuple(built.node)], built.ok)
    case ListOf => Built([], false)
    case Elsewhere(_) => Built([IrDynamic], true)
  }

  function BuildTargets(table: Collected, ts: seq<Target>): Built<seq<IrTarget>>
    decreases ts
  {
    if ts == [] then Built([], true)
    else
      var first, rest := BuildTarget(table, ts[0]), BuildTargets(table, ts[1..]);
      Built(first.node + rest.node, first.ok && rest.ok)
  }

  // An annotation without a value is dropped, and so is a statement whose single
  // target could not be built.
  function BuildStmt(table: Collected, st: Stmt): Built<seq<IrStmt>>
    decreases st
  {
    match st
    case Assign(targets, _) => var built := BuildTargets(table, targets); Built([IrAssign(built.node)], built.ok)
    case Annotated(x, _, valued, _) =>
      if !valued then Built([], true)
      else var built := BuildName(table, x); Built(if built.node == [] then [] else [IrAssign(built.node)], built.ok)
    case AugAssign(place, _) =>
      var built := if place.Some? then BuildName(table, place.value) else Built([IrDynamic], true);
      Built(if built.node == [] then [] else [IrAssign(built.node)], built.ok)
    case For(target, _, body, orelse) =>
      var built, body', orelse' := BuildTarget(table, target), BuildBody(table, body), BuildBody(table, orelse);
      if built.node == [] then Built([], false)
      else Built([IrFor(built.node[0], body'.node, orelse'.node)], built.ok && body'.ok && orelse'.ok)
    case While(_, body, orelse) =>
      var body', orelse' := BuildBody(table, body), BuildBody(table, orelse);
      Built([IrBranches(body'.node, orelse'.node)], body'.ok && orelse'.ok)
    case If(_, body, orelse) =>
      var body', orelse' := BuildBody(table, body), BuildBody(table, orelse);
      Built([IrBranches(body'.node, orelse'.node)], body'.ok && orelse'.ok)
    case Delete(targets) => var built := BuildTargets(table, targets); Built([IrDelete(built.node)], built.ok)
    case Other(_) => Built([IrOther], true)
  }

  function BuildBody(table: Collected, b: seq<Stmt>): Built<seq<IrStmt>>
    decreases b
  {
    if b == [] then Built([], true)
    else
      var first, rest := BuildStmt(table, b[0]), BuildBody(table, b[1..]);
      Built(first.node + rest.node, first.ok && rest.ok)
  }

  /* ---- collect_variables ---- */

  function FromTarget(t: IrTarget, variables: Table): Table
    decreases t
  {
    match t
    case IrName(x, a) => SetDefault(variables, x, a)
    case IrTuple(elements) => FromTargets(elements, variables)
    case IrDynamic => variables
  }

  function FromTargets(ts: seq<IrTarget>, variables: Table): Table
    decreases ts
  {
    if ts == [] then variables else FromTargets(ts[1..], FromTarget(ts[0], variables))
  }

  function FromStmt(st: IrStmt, variables: Table): Table
    decreases st
  {
    match st
    case IrAssign(targets) => FromTargets(targets, variables)
    case IrFor(target, body, orelse) => FromBody(orelse, FromBody(body, FromTarget(target, variables)))
    case IrBranches(body, orelse) => FromBody(orelse, FromBody(body, variables))
    case IrDelete(values) => FromTargets(values, variables)
    case IrOther => variables
  }

  function FromBody(b: seq<IrStmt>, variables: Table): Table
    decreases b
  {
    if b == [] then variables else FromBody(b[1..], FromStmt(b[0], variables))
  }

  /* ---- They list the same variables ---- */

  // No name is both a variable and a global, nor a variable twice.
  ghost predicate Apart(c: Collected) {
    Keyed(c.variables) && forall x :: x in c.globals ==> !Has(c.variables, x)
  }

  // What a walk adds: variables at the end, globals, diagnostics.
  predicate Grows(c: Collected, c': Collected) {
    c.variables <= c'.variables && c.globals <= c'.globals && (c'.ok ==> c.ok)
  }

  lemma HasPrefix(t: Table, t': Table, x: Name)
    requires t <= t' && Has(t, x)
    ensures Has(t', x)
  {
    var i :| 0 <= i < |t| && t[i].0 == x;
    assert t'[i].0 == x;
  }

  lemma {:induction false} LookupAt(t: Table, i: nat)
    requires Keyed(t) && i < |t|
    ensures Lookup(t, t[i].0) == Some(t[i].1)
    decreases i
  {
    if i > 0 {
      LookupAt(t[1..], i - 1);
    }
  }

  lemma MarkGrows(c: Collected, x: Name, a: Adapter)
    requires Apart(c)
    ensures Apart(Mark(c, x, a)) && Grows(c, Mark(c, x, a))
  {
    var c' := Mark(c, x, a);
    forall y | y in c'.globals ensures !Has(c'.variables, y) {
      if i :| 0 <= i < |c'.variables| && c'.variables[i].0 == y {
        assert i < |c.variables| ==> Has(c.variables, y);
      }
    }
  }

  lemma {:induction false} NoteAllGrows(c: Collected, names: seq<Name>)
    requires Apart(c)
    ensures Apart(NoteAll(c, names)) && Grows(c, NoteAll(c, names))
    ensures NoteAll(c, names).variables == c.variables && NoteAll(c, names).ok == c.ok
    decreases |names|
  {
    if names != [] {
      NoteAllGrows(Note(c, names[0]), names[1..]);
    }
  }

  lemma {:induction false} NoteTargetsGrows(c: Collected, ts: seq<Target>)
    requires Apart(c)
    ensures Apart(NoteTargets(c, ts)) && Grows(c, NoteTargets(c, ts))
    ensures NoteTargets(c, ts).variables == c.variables
    decreases ts
  {
    if ts != [] {
      match ts[0]
      case Named(x, _) => NoteTargetsGrows(Note(c, x), ts[1..]);
      case TupleOf(elements) =>
        NoteTargetsGrows(c, elements);
        NoteTargetsGrows(NoteTargets(c, elements), ts[1..]);
      case ListOf => NoteTargetsGrows(c, ts[1..]);
      case Elsewhere(names) =>
        NoteAllGrows(c, names);
        NoteTargetsGrows(NoteAll(c, names), ts[1..]);
    }
  }

  lemma {:induction false} MarkTargetGrows(c: Collected, t: Target, loop: bool)
    requires Apart(c)
    ensures Apart(MarkTarget(c, t, loop)) && Grows(c, MarkTarget(c, t, loop))
    decreases t
  {
    match t
    case Named(x, a) => MarkGrows(c, x, a);
    case TupleOf(elements) => MarkTargetsGrows(c, elements, loop);
    case _ =>
  }

  lemma {:induction false} MarkTargetsGrows(c: Collected, ts: seq<Target>, loop: bool)
    requires Apart(c)
    ensures Apart(MarkTargets(c, ts, loop)) && Grows(c, MarkTargets(c, ts, loop))
    decreases ts
  {
    if ts != [] {
      MarkTargetGrows(c, ts[0], loop);
      MarkTargetsGrows(MarkTarget(c, ts[0], loop), ts[1..], loop);
    }
  }

  // The collector just before the nested bodies of a statement.
  function BeforeBodies(c: Collected, st: Stmt): Collected {
    match st
    case Assign(targets, names) => AssignNames(c, MarkTargets(c, targets, false), names)
    case Annotated(x, a, valued, names) => if valued then AssignNames(c, Mark(c, x, a), names) else Mark(c, x, a)
    case AugAssign(place, names) => NoteAll(if place.Some? then Mark(c, place.value, VA) else c, names)
    case For(target, names, _, _) => NoteAll(MarkTarget(c, target, true), names)
    case While(names, _, _) => NoteAll(c, names)
    case If(names, _, _) => NoteAll(c, names)
    case Delete(targets) => NoteTargets(c, targets)
    case Other(names) => NoteAll(c, names)
  }

  lemma BeforeGrows(c: Collected, st: Stmt)
    requires Apart(c)
    ensures Apart(BeforeBodies(c, st)) && Grows(c, BeforeBodies(c, st))
  {
    match st
    case Assign(targets, names) =>
      MarkTargetsGrows(c, targets, false);
      NoteAllGrows(CheckReads(c, MarkTargets(c, targets, false), names), names);
    case Annotated(x, a, _, names) =>
      MarkGrows(c, x, a);
      NoteAllGrows(CheckReads(c, Mark(c, x, a), names), names);
    case AugAssign(place, names) =>
      if place.Some? {
        MarkGrows(c, place.value, VA);
      }
      NoteAllGrows(if place.Some? then Mark(c, place.value, VA) else c, names);
    case For(target, names, _, _) =>
      MarkTargetGrows(c, target, true);
      NoteAllGrows(MarkTarget(c, target, true), names);
    case While(names, _, _) => NoteAllGrows(c, names);
    case If(names, _, _) => NoteAllGrows(c, names);
    case Delete(targets) => NoteTargetsGrows(c, targets);
    case Other(names) => NoteAllGrows(c, names);
  }

  lemma {:induction false} VisitGrows(c: Collected, st: Stmt)
    requires Apart(c)
    ensures Apart(VisitStmt(c, st)) && Grows(c, VisitStmt(c, st))
    decreases st
  {
    BeforeGrows(c, st);
    var c' := BeforeBodies(c, st);
    if st.For? || st.While? || st.If? {
      VisitBodyGrows(c', st.body);
      VisitBodyGrows(VisitBody(c', st.body), st.orelse);
    }
  }

  lemma {:induction false} VisitBodyGrows(c: Collected, b: seq<Stmt>)
    requires Apart(c)
    ensures Apart(VisitBody(c, b)) && Grows(c, VisitBody(c, b))
    decreases b
  {
    if b != [] {
      VisitGrows(c, b[0]);
      VisitBodyGrows(VisitStmt(c, b[0]), b[1..]);
    }
  }

  lemma {:induction false} FromTargetsAppend(a: seq<IrTarget>, b: seq<IrTarget>, variables: Table)
    ensures FromTargets(a + b, variables) == FromTargets(b, FromTargets(a, variables))
    decreases |a|
  {
    if a == [] {
      assert a + b == b;
    } else {
      assert (a + b)[1..] == a[1..] + b;
      FromTargetsAppend(a[1..], b, FromTarget(a[0], variables));
    }
  }

  lemma {:induction false} FromBodyAppend(a: seq<IrStmt>, b: seq<IrStmt>, variables: Table)
    ensures FromBody(a + b, variables) == FromBody(b, FromBody(a, variables))
    decreases |a|
  {
    if a == [] {
      assert a + b == b;
    } else {
      assert (a + b)[1..] == a[1..] + b;
      FromBodyAppend(a[1..], b, FromStmt(a[0], variables));
    }
  }

  lemma OneTarget(t: IrTarget, variables: Table)
    ensures FromTargets([t], variables) == FromTarget(t, variables)
  {
    assert [t][1..] == [];
  }

  lemma OneStmt(st: IrStmt, variables: Table)
    ensures FromBody([st], variables) == FromStmt(st, variables)
  {
    assert [st][1..] == [];
  }

  // Marking a name, and listing the target that is built for it.
  lemma NameSame(table: Collected, c: Collected, x: Name, a: Adapter)
    requires Apart(c) && Apart(table) && Mark(c, x, a).ok && Grows(Mark(c, x, a), table)
    ensures BuildName(table, x).ok && |BuildName(table, x).node| == 1
    ensures FromTargets(BuildName(table, x).node, c.variables) == Mark(c, x, a).variables
  {
    var c' := Mark(c, x, a);
    MarkGrows(c, x, a);
    assert Has(c'.variables, x) by {
      assert !Has(c.variables, x) ==> c'.variables[|c.variables|].0 == x;
    }
    HasPrefix(c'.variables, table.variables, x);
    if !Has(c.variables, x) {
      assert table.variables[|c.variables|] == (x, a);
      LookupAt(table.variables, |c.variables|);
    }
    OneTarget(BuildName(table, x).node[0], c.variables);
  }

  lemma {:induction false} TargetSame(table: Collected, c: Collected, t: Target, loop: bool)
    requires Apart(c) && Apart(table) && MarkTarget(c, t, loop).ok && Grows(MarkTarget(c, t, loop), table)
    ensures BuildTarget(table, t).ok && |BuildTarget(table, t).node| == 1
    ensures FromTargets(BuildTarget(table, t).node, c.variables) == MarkTarget(c, t, loop).variables
    decreases t
  {
    match t
    case Named(x, a) => NameSame(table, c, x, a);
    case TupleOf(elements) =>
      TargetsSame(table, c, elements, loop);
      OneTarget(IrTuple(BuildTargets(table, elements).node), c.variables);
    case _ => OneTarget(IrDynamic, c.variables);
  }

  lemma {:induction false} TargetsSame(table: Collected, c: Collected, ts: seq<Target>, loop: bool)
    requires Apart(c) && Apart(table) && MarkTargets(c, ts, loop).ok && Grows(MarkTargets(c, ts, loop), table)
    ensures BuildTargets(table, ts).ok
    ensures FromTargets(BuildTargets(table, ts).node, c.variables) == MarkTargets(c, ts, loop).variables
    decreases ts
  {
    if ts != [] {
      var c' := MarkTarget(c, ts[0], loop);
      MarkTargetGrows(c, ts[0], loop);
      MarkTargetsGrows(c', ts[1..], loop);
      TargetSame(table, c, ts[0], loop);
      TargetsSame(table, c', ts[1..], loop);
      FromTargetsAppend(BuildTarget(table, ts[0]).node, BuildTargets(table, ts[1..]).node, c.variables);
    }
  }

  // A deletion that builds only deletes names already listed.
  lemma {:induction false} DeletedSame(table: Collected, c: Collected, ts: seq<Target>)
    requires Apart(c) && Apart(table) && Grows(NoteTargets(c, ts), table) && BuildTargets(table, ts).ok
    ensures FromTargets(BuildTargets(table, ts).node, c.variables) == c.variables
    decreases ts
  {
    if ts != [] {
      var c' := NoteTargets(c, [ts[0]]);
      var first, rest := BuildTarget(table, ts[0]).node, BuildTargets(table, ts[1..]).node;
      assert [ts[0]][1..] == [];
      NoteTargetsGrows(c, [ts[0]]);
      NoteTargetsGrows(c', ts[1..]);
      assert NoteTargets(c, ts) == NoteTargets(c', ts[1..]);
      DeletedSame(table, c', ts[1..]);
      FromTargetsAppend(first, rest, c.variables);
      match ts[0]
      case Named(x, _) => OneTarget(first[0], c.variables);
      case TupleOf(elements) =>
        DeletedSame(table, c, elements);
        OneTarget(first[0], c.variables);
      case _ => if first != [] { OneTarget(IrDynamic, c.variables); }
    }
  }

  // Every annotation comes with a value.
  predicate Valued(st: Stmt)
    decreases st
  {
    match st
    case Annotated(_, _, valued, _) => valued
    case For(_, _, body, orelse) => AllValued(body) && AllValued(orelse)
    case While(_, body, orelse) => AllValued(body) && AllValued(orelse)
    case If(_, body, orelse) => AllValued(body) && AllValued(orelse)
    case _ => true
  }

  predicate AllValued(b: seq<Stmt>)
    decreases b
  {
    b == [] || (Valued(b[0]) && AllValued(b[1..]))
  }

  lemma {:induction false} StmtSame(table: Collected, c: Collected, st: Stmt)
    requires Apart(c) && Apart(table) && VisitStmt(c, st).ok && Grows(VisitStmt(c, st), table)
    requires BuildStmt(table, st).ok && Valued(st)
    ensures FromBody(BuildStmt(table, st).node, c.variables) == VisitStmt(c, st).variables
    decreases st, 1
  {
    BeforeGrows(c, st);
    match st
    case Assign(targets, names) =>
      MarkTargetsGrows(c, targets, false);
      NoteAllGrows(CheckReads(c, MarkTargets(c, targets, false), names), names);
      TargetsSame(table, c, targets, false);
      OneStmt(IrAssign(BuildTargets(table, targets).node), c.variables);
    case Annotated(x, a, _, names) =>
      MarkGrows(c, x, a);
      NoteAllGrows(CheckReads(c, Mark(c, x, a), names), names);
      NameSame(table, c, x, a);
      OneStmt(IrAssign(BuildName(table, x).node), c.variables);
    case AugAssign(place, names) => AugSame(table, c, place, names);
    case For(target, names, body, orelse) =>
      MarkTargetGrows(c, target, true);
      var c' := MarkTarget(c, target, true);
      NoteAllGrows(c', names);
      BodiesGrow(NoteAll(c', names), body, orelse);
      TargetSame(table, c, target, true);
      BodiesSame(table, NoteAll(c', names), st);
      OneTarget(BuildTarget(table, target).node[0], c.variables);
      OneStmt(BuildStmt(table, st).node[0], c.variables);
    case While(names, body, orelse) =>
      NoteAllGrows(c, names);
      BodiesSame(table, NoteAll(c, names), st);
      OneStmt(BuildStmt(table, st).node[0], c.variables);
    case If(names, body, orelse) =>
      NoteAllGrows(c, names);
      BodiesSame(table, NoteAll(c, names), st);
      OneStmt(BuildStmt(table, st).node[0], c.variables);
    case Delete(targets) =>
      NoteTargetsGrows(c, targets);
      DeletedSame(table, c, targets);
      OneStmt(IrDelete(BuildTargets(table, targets).node), c.variables);
    case Other(names) =>
      NoteAllGrows(c, names);
      OneStmt(IrOther, c.variables);
  }

  lemma AugSame(table: Collected, c: Collected, place: Option<Name>, names: seq<Name>)
    requires Apart(c) && Apart(table)
    requires var c' := VisitStmt(c, AugAssign(place, names)); c'.ok && Grows(c', table)
    ensures FromBody(BuildStmt(table, AugAssign(place, names)).node, c.variables)
         == VisitStmt(c, AugAssign(place, names)).variables
  {
    if place.Some? {
      MarkGrows(c, place.value, VA);
      NoteAllGrows(Mark(c, place.value, VA), names);
      NameSame(table, c, place.value, VA);
      OneStmt(IrAssign(BuildName(table, place.value).node), c.variables);
    } else {
      NoteAllGrows(c, names);
      OneTarget(IrDynamic, c.variables);
      OneStmt(IrAssign([IrDynamic]), c.variables);
    }
  }

  lemma BodiesGrow(c: Collected, body: seq<Stmt>, orelse: seq<Stmt>)
    requires Apart(c)
    ensures Grows(c, VisitBody(VisitBody(c, body), orelse))
  {
    VisitBodyGrows(c, body);
    VisitBodyGrows(VisitBody(c, body), orelse);
  }

  lemma {:induction false} BodiesSame(table: Collected, c: Collected, st: Stmt)
    requires st.For? || st.While? || st.If?
    requires Apart(c) && Apart(table) && AllValued(st.body) && AllValued(st.orelse)
    requires var c' := VisitBody(VisitBody(c, st.body), st.orelse); c'.ok && Grows(c', table)
    requires BuildBody(table, st.body).ok && BuildBody(table, st.orelse).ok
    ensures FromBody(BuildBody(table, st.orelse).node, FromBody(BuildBody(table, st.body).node, c.variables))
         == VisitBody(VisitBody(c, st.body), st.orelse).variables
    decreases st, 0
  {
    VisitBodyGrows(c, st.body);
    VisitBodyGrows(VisitBody(c, st.body), st.orelse);
    BodySame(table, c, st.body);
    BodySame(table, VisitBody(c, st.body), st.orelse);
  }

  lemma {:induction false} BodySame(table: Collected, c: Collected, b: seq<Stmt>)
    requires Apart(c) && Apart(table) && AllValued(b)
    requires VisitBody(c, b).ok && Grows(VisitBody(c, b), table) && BuildBody(table, b).ok
    ensures FromBody(BuildBody(table, b).node, c.variables) == VisitBody(c, b).variables
    decreases b, 2
  {
    if b != [] {
      var c' := VisitStmt(c, b[0]);
      VisitGrows(c, b[0]);
      VisitBodyGrows(c', b[1..]);
      StmtSame(table, c, b[0]);
      BodySame(table, c', b[1..]);
      FromBodyAppend(BuildStmt(table, b[0]).node, BuildBody(table, b[1..]).node, c.variables);
    }
  }

  /** For a function without diagnostics whose annotations all carry values, the
      lowering lists the collector's variables: the same names, in the same order,
      with the same adapters. */
  lemma SameVariables(params: Table, b: seq<Stmt>)
    requires Keyed(params) && AllValued(b)
    requires CollectSymbols(params, b).ok && BuildBody(CollectSymbols(params, b), b).ok
    ensures FromBody(BuildBody(CollectSymbols(params, b), b).node, params) == CollectSymbols(params, b).variables
  {
    var c := Collected(params, {}, true);
    VisitBodyGrows(c, b);
    BodySame(CollectSymbols(params, b), c, b);
  }

  /** A bare annotation is a symbol that the lowering never lists. */
  lemma BareAnnotationIsDropped(params: Table, x: Name, a: Adapter)
    requires Keyed(params) && !Has(params, x)
    ensures var b := [Annotated(x, a, false, [])];
            var table := CollectSymbols(params, b);
            && table.ok && BuildBody(table, b).ok
            && table.variables == params + [(x, a)] && FromBody(BuildBody(table, b).node, params) == params
  {
    var b, c := [Annotated(x, a, false, [])], Collected(params, {}, true);
    assert b[1..] == [];
    assert VisitBody(c, b) == VisitBody(Mark(c, x, a), []) == Collected(params + [(x, a)], {}, true);
    assert BuildBody(CollectSymbols(params, b), b) == Built([] + [], true);
  }
}
