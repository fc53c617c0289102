/** Schedules do not matter: whatever order interactions and their connects run
    in, a value that reaches a wire is the one the net's equations give it. */
module Determinacy {
  import opened Options
  import opened Nets
  import opened Interactions
  import opened Machine
  import opened Solutions

  // What each template takes to what.
  type Meaning = (nat, Tree, Tree) -> bool

  ghost function TreesWith(graft: Meaning): (al: Algebra<Tree>)
    ensures TuplesSplit(al) && ValuesReturn(al)
  {
    Algebra(v => Data(v), (a, b) => Tupled(a, b), (t: Tree) => if t.Data? then Some(t.value) else None, None, graft)
  }

  // Without templates, a graft may say anything.
  ghost function Trees(): (al: Algebra<Tree>)
    ensures TuplesSplit(al) && ValuesReturn(al)
  {
    TreesWith((agent, t, u) => true)
  }

  /** A duplicator left of a tuple mirrors it: the rule's equations have a solution
      exactly when the two halves are equal. */
  lemma CrossingExactly(l: Port, r: Port, next: Wire, t: Tree, sigma: Wire -> Tree)
    requires Crosses(l, r) && Below(AtPort(l), next) && Below(AtPort(r), next)
    requires Accepts(Trees(), l, t, sigma) && Accepts(Trees(), r, t, sigma)
    ensures (exists tau: Wire -> Tree ::
               Extends(sigma, tau, next) && AllConsistent(Trees(), CommuteOrAnnihilate(l, r, next), tau))
            <==> t.left == t.right
  {
    var links := CommuteOrAnnihilate(l, r, next);
    if t.left == t.right {
      var p := t.left;
      var tau := Fresh8(sigma, next, [p, p, p, p, p, p, p, p]);
      AcceptsSame(Trees(), l, t, sigma, tau, next);
      AcceptsSame(Trees(), r, t, sigma, tau, next);
      CommuteLinked(Trees(), links, tau, p, p, p, p, t, t, p, p);
      assert Extends(sigma, tau, next);
    }
    if tau: Wire -> Tree :| Extends(sigma, tau, next) && AllConsistent(Trees(), links, tau) {
      CrossingMirrors(l, r, next, t, sigma, tau);
    }
  }

  lemma CrossingMirrors(l: Port, r: Port, next: Wire, t: Tree, sigma: Wire -> Tree, tau: Wire -> Tree)
    requires Crosses(l, r) && Below(AtPort(l), next) && Below(AtPort(r), next)
    requires Accepts(Trees(), l, t, sigma) && Accepts(Trees(), r, t, sigma)
    requires Extends(sigma, tau, next) && AllConsistent(Trees(), CommuteOrAnnihilate(l, r, next), tau)
    ensures t.left == t.right
  {
    var links := CommuteOrAnnihilate(l, r, next);
    AcceptsSame(Trees(), l, t, sigma, tau, next);
    AcceptsSame(Trees(), r, t, sigma, tau, next);
    assert Consistent(Trees(), links[0].0, links[0].1, tau) && tau(next) == tau(next + 5);
    assert Consistent(Trees(), links[4].0, links[4].1, tau) && t == Tupled(tau(next + 4), tau(next + 5));
    assert Consistent(Trees(), links[6].0, links[6].1, tau) && tau(next) == t.left;
  }

  predicate Tagged(p: Port) {
    p.Comb? ==> Copier(p) || Tuple(p)
  }

  // A run whose copies are never crossed.
  ghost predicate Straight(states: seq<System>, moves: seq<Move>)
    requires |states| == |moves| + 1
  {
    forall i :: 0 <= i < |moves| && moves[i].Start? && moves[i].pair < |states[i].net.pairs| ==>
      var (l, r) := states[i].net.pairs[moves[i].pair];
      !Crosses(l, r) && Tagged(l) && Tagged(r)
  }

  /** Schedule independence: in any run, whatever it expands, a value that arrives
      on one of the initial wires is the one every solution of the initial net gives
      it. So no two schedules deliver different values. */
  lemma ValuesAreDetermined(lib: Library, graft: Meaning, states: seq<System>, moves: seq<Move>,
                            sigma: Wire -> Tree, i: nat, w: Wire, v: Value)
    requires Run(lib, states, moves) && Straight(states, moves) && i < |states|
    requires LinearLibrary(lib) && Lawful(TreesWith(graft), lib)
    requires Linear(states[0]) && Solves(TreesWith(graft), states[0], sigma) && w < states[0].next
    requires w in Live(states[i].net) && states[i].net.target[w] == ValuePort(v)
    ensures sigma(w) == Data(v)
  {
    var tau := RunSolves(TreesWith(graft), lib, states, moves, sigma, i);
    assert Accepts(TreesWith(graft), states[i].net.target[w], tau(w), tau);
  }
}
