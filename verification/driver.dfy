/** The deferred compile driver of src/natsune/inet.py: depth-first compilation of
    a call graph that may be cyclic, through promises that are filled later. */
module Driver {

  /* What a call site grafts. A frozen net holds what its own call sites grafted. */
  datatype Expansion =
    | Missing
    | Promised(promise: Promise)
    | Frozen(owner: InetFunction, embedded: seq<Expansion>)

  class Promise {
    const owner: InetFunction
    var target: Expansion

    constructor (owner: InetFunction)
      ensures this.owner == owner && target == Missing
    {
      this.owner := owner;
      target := Missing;
    }
  }

  class InetFunction {
    var compiled: bool
    var compiling: bool
    var expansion: Expansion
    var promise: Promise?
    ghost var compilations: nat

    constructor ()
      ensures !compiled && !compiling && expansion == Missing && promise == null && compilations == 0
    {
      compiled, compiling := false, false;
      expansion, promise, compilations := Missing, null, 0;
    }
  }

  // Which functions each function calls, in source order.
  type Calls = map<InetFunction, seq<InetFunction>>

  ghost predicate ClosedGraph(calls: Calls, fs: set<InetFunction>) {
    fs <= calls.Keys && forall f, i :: f in fs && 0 <= i < |calls[f]| ==> calls[f][i] in fs
  }

  // Following the calls numbered in `route`, from f to g.
  predicate Leads(calls: Calls, f: InetFunction, route: seq<nat>, g: InetFunction)
    decreases |route|
  {
    if route == [] then f == g
    else f in calls && route[0] < |calls[f]| && Leads(calls, calls[f][route[0]], route[1..], g)
  }

  ghost predicate Reachable(calls: Calls, f: InetFunction, g: InetFunction) {
    exists route: seq<nat> :: Leads(calls, f, route, g)
  }

  lemma ReachesItself(calls: Calls, f: InetFunction)
    ensures Reachable(calls, f, f)
  {
    assert Leads(calls, f, [], f);
  }

  lemma ReachesThrough(calls: Calls, f: InetFunction, i: nat, g: InetFunction)
    requires f in calls && i < |calls[f]| && Reachable(calls, calls[f][i], g)
    ensures Reachable(calls, f, g)
  {
    var route: seq<nat> :| Leads(calls, calls[f][i], route, g);
    assert ([i] + route)[1..] == route;
    assert Leads(calls, f, [i] + route, g);
  }

  function White(fs: set<InetFunction>): set<InetFunction>
    reads fs
  {
    set f | f in fs && !f.compiled && !f.compiling
  }

  function Promises(fs: set<InetFunction>): set<Promise?>
    reads fs
  {
    set f | f in fs :: f.promise
  }

  // A call site of g holds g's net, or g's promise if g was not compiled yet.
  ghost predicate Grafts(e: Expansion, g: InetFunction)
    reads g
  {
    match e
    case Missing => false
    case Promised(p) => p == g.promise
    case Frozen(owner, _) => owner == g && g.compiled && e == g.expansion
  }

  ghost predicate Coherent(calls: Calls, fs: set<InetFunction>, f: InetFunction)
    requires ClosedGraph(calls, fs) && f in fs
    reads fs, Promises(fs)
  {
    && !(f.compiled && f.compiling)
    && f.compilations == (if f.compiled || f.compiling then 1 else 0)
    && (f.compiling ==> f.promise != null && f.promise.owner == f && f.promise.target == Missing
                        && f.expansion == Promised(f.promise))
    && (f.compiled ==> f.promise != null && f.promise.owner == f && f.promise.target == f.expansion
                       && f.expansion.Frozen? && f.expansion.owner == f && |f.expansion.embedded| == |calls[f]|)
    && (f.compiled ==> forall i :: 0 <= i < |calls[f]| ==>
          Grafts(f.expansion.embedded[i], calls[f][i]) && (calls[f][i].compiled || calls[f][i].compiling))
  }

  ghost predicate Valid(calls: Calls, fs: set<InetFunction>)
    reads fs, Promises(fs)
  {
    ClosedGraph(calls, fs) && forall f :: f in fs ==> Coherent(calls, fs, f)
  }

  // Compiled functions are final, and those being compiled are left alone.
  twostate predicate Grows(fs: set<InetFunction>)
    reads fs
  {
    forall f :: f in fs ==>
      (old(f.compiled) ==> f.compiled && f.expansion == old(f.expansion) && f.promise == old(f.promise))
      && f.compiling == old(f.compiling)
      && (f.compiling ==> !f.compiled && f.expansion == old(f.expansion) && f.promise == old(f.promise))
  }

  // Everything but f is as it was.
  twostate predicate OthersKept(fs: set<InetFunction>, f: InetFunction)
    reads fs
  {
    forall g :: g in fs && g != f ==> unchanged(g`compiled, g`compiling, g`expansion, g`promise, g`compilations)
  }

  method Begin(calls: Calls, fs: set<InetFunction>, f: InetFunction)
    requires Valid(calls, fs) && f in fs && !f.compiled && !f.compiling
    modifies f
    ensures Valid(calls, fs)
    ensures f.compiling && fresh(f.promise)
    ensures OthersKept(fs, f)
  {
    var promise := new Promise(f);
    f.compiling := true;
    f.compilations := f.compilations + 1;
    f.promise := promise;
    f.expansion := Promised(promise);
    forall g | g in fs ensures Coherent(calls, fs, g) {
      assert old(Coherent(calls, fs, g));
    }
  }

  // promise.target = frozen; expansion = frozen; and the flag goes down.
  method Finish(calls: Calls, fs: set<InetFunction>, f: InetFunction, embedded: seq<Expansion>)
    requires Valid(calls, fs) && f in fs && f.compiling
    requires |embedded| == |calls[f]|
    requires forall i :: 0 <= i < |embedded| ==>
               Grafts(embedded[i], calls[f][i]) && (calls[f][i].compiled || calls[f][i].compiling)
    modifies f, f.promise
    ensures Valid(calls, fs)
    ensures f.compiled && f.promise == old(f.promise)
    ensures OthersKept(fs, f)
  {
    var frozen := Frozen(f, embedded);
    f.promise.target := frozen;
    f.expansion := frozen;
    f.compiled := true;
    f.compiling := false;
    forall g | g in fs ensures Coherent(calls, fs, g) {
      assert old(Coherent(calls, fs, g));
      if g != f {
        assert g.compiled || g.compiling ==> g.promise.owner == g && g.promise != f.promise;
        if g.compiled {
          forall i | 0 <= i < |calls[g]|
            ensures Grafts(g.expansion.embedded[i], calls[g][i]) && (calls[g][i].compiled || calls[g][i].compiling)
          {
            assert old(Grafts(g.expansion.embedded[i], calls[g][i]) && (calls[g][i].compiled || calls[g][i].compiling));
          }
        }
      }
    }
  }

  // Lowering grafts every call uniformly: the callee's net, or its promise.
  method Lower(calls: Calls, fs: set<InetFunction>, f: InetFunction) returns (embedded: seq<Expansion>)
    requires Valid(calls, fs) && f in fs && f.compiling
    requires forall i :: 0 <= i < |calls[f]| ==> calls[f][i].compiled || calls[f][i].compiling
    ensures |embedded| == |calls[f]|
    ensures forall i :: 0 <= i < |embedded| ==> Grafts(embedded[i], calls[f][i])
  {
    embedded := [];
    var i := 0;
    while i < |calls[f]|
      invariant 0 <= i <= |calls[f]| && |embedded| == i
      invariant forall j :: 0 <= j < i ==> Grafts(embedded[j], calls[f][j])
    {
      var callee := calls[f][i];
      assert Coherent(calls, fs, callee);
      embedded := embedded + [callee.expansion];
      i := i + 1;
    }
  }

  // Only f and functions reachable from it are compiled on f's behalf.
  twostate predicate OnlyReached(calls: Calls, fs: set<InetFunction>, f: InetFunction)
    reads fs
  {
    forall g :: g in fs && g.compiled && !old(g.compiled) ==> Reachable(calls, f, g)
  }

  method EnsureCompiled(calls: Calls, fs: set<InetFunction>, f: InetFunction)
    requires Valid(calls, fs) && f in fs
    modifies fs
    ensures Valid(calls, fs) && Grows(fs)
    ensures old(f.compiling) || f.compiled
    ensures White(fs) <= old(White(fs))
    ensures OnlyReached(calls, fs, f)
    decreases White(fs), 0
  {
    if f.compiled || f.compiling {
      return;
    }
    ReachesItself(calls, f);
    ghost var white := White(fs);
    Begin(calls, fs, f);
    assert White(fs) == white - {f};
    CompileCallees(calls, fs, f);
    var embedded := Lower(calls, fs, f);
    Finish(calls, fs, f, embedded);
  }

  // The callee pass: every marked callee, depth first.
  method CompileCallees(calls: Calls, fs: set<InetFunction>, f: InetFunction)
    requires Valid(calls, fs) && f in fs && f.compiling
    modifies fs
    ensures Valid(calls, fs) && Grows(fs)
    ensures forall i :: 0 <= i < |calls[f]| ==> calls[f][i].compiled || calls[f][i].compiling
    ensures White(fs) <= old(White(fs))
    ensures OnlyReached(calls, fs, f)
    decreases White(fs), 1
  {
    ghost var white := White(fs);
    var i := 0;
    while i < |calls[f]|
      invariant 0 <= i <= |calls[f]|
      invariant Valid(calls, fs) && Grows(fs)
      invariant White(fs) <= white
      invariant forall j :: 0 <= j < i ==> calls[f][j].compiled || calls[f][j].compiling
      invariant OnlyReached(calls, fs, f)
    {
      label Before:
      EnsureCompiled(calls, fs, calls[f][i]);
      forall g | g in fs && g.compiled && !old@Before(g.compiled) ensures Reachable(calls, f, g) {
        ReachesThrough(calls, f, i, g);
      }
      i := i + 1;
    }
  }

  /* ---- After an outermost call ---- */

  // Every call site of a compiled function leads to its callee's finished net.
  ghost predicate Linked(calls: Calls, fs: set<InetFunction>, f: InetFunction)
    requires ClosedGraph(calls, fs) && f in fs
    reads fs, Promises(fs)
  {
    f.compiled && f.expansion.Frozen? && |f.expansion.embedded| == |calls[f]|
    && forall i :: 0 <= i < |calls[f]| ==>
         var g := calls[f][i];
         g.compiled && g.expansion.Frozen? && g.expansion.owner == g
         && match f.expansion.embedded[i]
            case Missing => false
            case Promised(p) => p == g.promise && p.target == g.expansion
            case Frozen(_, _) => f.expansion.embedded[i] == g.expansion
  }

  lemma {:induction false} ClosureIsCompiled(calls: Calls, fs: set<InetFunction>, f: InetFunction,
                                             route: seq<nat>, g: InetFunction)
    requires Valid(calls, fs) && (forall h :: h in fs ==> !h.compiling)
    requires f in fs && f.compiled && Leads(calls, f, route, g)
    ensures g in fs && g.compiled && g.compilations == 1 && Linked(calls, fs, g)
    decreases |route|
  {
    assert Coherent(calls, fs, f);
    if route == [] {
      forall i | 0 <= i < |calls[f]| ensures calls[f][i].compiled && Coherent(calls, fs, calls[f][i]) {
        assert Grafts(f.expansion.embedded[i], calls[f][i]);
      }
    } else {
      ClosureIsCompiled(calls, fs, calls[f][route[0]], route[1..], g);
    }
  }

  /** The first call of a function compiles exactly what it can reach: each such
      function once, with every promise its net embeds filled by then. */
  method FirstCall(calls: Calls, fs: set<InetFunction>, f: InetFunction)
    requires Valid(calls, fs) && f in fs && forall g :: g in fs ==> !g.compiling
    modifies fs
    ensures Valid(calls, fs)
    ensures forall g :: g in fs ==> !g.compiling
    ensures forall g :: g in fs && Reachable(calls, f, g) ==> g.compiled && g.compilations == 1 && Linked(calls, fs, g)
    ensures forall g :: g in fs && g.compiled ==> old(g.compiled) || Reachable(calls, f, g)
    ensures forall g :: g in fs && old(g.compiled) ==> g.expansion == old(g.expansion)
  {
    EnsureCompiled(calls, fs, f);
    forall g | g in fs && Reachable(calls, f, g) ensures g.compiled && g.compilations == 1 && Linked(calls, fs, g) {
      var route: seq<nat> :| Leads(calls, f, route, g);
      ClosureIsCompiled(calls, fs, f, route, g);
    }
  }
}
