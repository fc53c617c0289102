/** Duplicating trees. A duplicator that stands left of a tuple crosses its halves
    (determinacy.dfy), and which side it stands on depends on the schedule: so a
    copy is the original up to mirroring, and nothing more is true. */
module Duplication {
  import opened Options
  import opened Nets
  import opened Interactions
  import opened Machine
  import opened Solutions
  import opened Determinacy

  // t is u with the halves of some tuples exchanged.
  predicate Mirrors(t: Tree, u: Tree) {
    match (t, u)
    case (Data(v), Data(w)) => v == w
    case (Hole, Hole) => true
    case (Tupled(a, b), Tupled(c, d)) => (Mirrors(a, c) && Mirrors(b, d)) || (Mirrors(a, d) && Mirrors(b, c))
    case (_, _) => false
  }

  lemma {:induction false} MirrorsItself(t: Tree)
    ensures Mirrors(t, t)
  {
    if t.Tupled? {
      MirrorsItself(t.left);
      MirrorsItself(t.right);
    }
  }

  // How often a value, or a hole, is a leaf of t.
  function Leaves(t: Tree, leaf: Tree): nat {
    match t
    case Tupled(a, b) => Leaves(a, leaf) + Leaves(b, leaf)
    case _ => if t == leaf then 1 else 0
  }

  /* ---- Trees up to mirroring, as an algebra whose tuples commute ---- */

  type Mirrored = iset<Tree>

  ghost function Class(u: Tree): Mirrored {
    iset t | Mirrors(t, u)
  }

  ghost function Either(a: Mirrored, b: Mirrored): Mirrored {
    iset t: Tree | t.Tupled? && ((t.left in a && t.right in b) || (t.left in b && t.right in a))
  }

  ghost function Classes(): Algebra<Mirrored> {
    Algebra(v => Class(Data(v)), (a, b) => Either(a, b), (c: Mirrored) => None, Some(Class(Hole)),
            (agent, c, d) => true)
  }

  // Trees as in Determinacy, with an erasure standing for a hole.
  ghost function Exact(): Algebra<Tree> {
    Trees().(nothing := Some(Hole))
  }

  lemma ClassesCommute()
    ensures TuplesCommute(Classes())
  {
    forall a, b ensures Either(a, b) == Either(b, a) {
    }
  }

  lemma ClassOfTuple(a: Tree, b: Tree)
    ensures Class(Tupled(a, b)) == Either(Class(a), Class(b))
  {
  }

  ghost function Blurred(rho: Wire -> Tree): Wire -> Mirrored {
    (w: Wire) => Class(rho(w))
  }

  lemma BlurAccepts(p: Port, t: Tree, rho: Wire -> Tree)
    requires Accepts(Exact(), p, t, rho)
    ensures Accepts(Classes(), p, Class(t), Blurred(rho))
  {
    if p.Comb? && !Copies(p.tag) {
      ClassOfTuple(rho(p.left), rho(p.right));
    }
  }

  lemma BlurConsistent(x: Target, y: Target, rho: Wire -> Tree)
    requires Consistent(Exact(), x, y, rho)
    ensures Consistent(Classes(), x, y, Blurred(rho))
  {
    var t :| AcceptsAt(Exact(), x, t, rho) && AcceptsAt(Exact(), y, t, rho);
    if x.AtPort? {
      BlurAccepts(x.port, t, rho);
    }
    if y.AtPort? {
      BlurAccepts(y.port, t, rho);
    }
    Linked(Classes(), x, y, Class(t), Blurred(rho));
  }

  lemma BlurSolves(s: System, rho: Wire -> Tree)
    requires Solves(Exact(), s, rho)
    ensures Solves(Classes(), s, Blurred(rho))
  {
    forall w | w in Live(s.net) ensures Accepts(Classes(), s.net.target[w], Blurred(rho)(w), Blurred(rho)) {
      BlurAccepts(s.net.target[w], rho(w), rho);
    }
    forall i | 0 <= i < |s.net.pairs|
      ensures Consistent(Classes(), AtPort(s.net.pairs[i].0), AtPort(s.net.pairs[i].1), Blurred(rho))
    {
      BlurConsistent(AtPort(s.net.pairs[i].0), AtPort(s.net.pairs[i].1), rho);
    }
    forall k, j | 0 <= k < |s.inflight| && 0 <= j < |s.inflight[k]|
      ensures Consistent(Classes(), s.inflight[k][j].0, s.inflight[k][j].1, Blurred(rho))
    {
      BlurConsistent(s.inflight[k][j].0, s.inflight[k][j].1, rho);
    }
  }

  /* ---- Runs that only copy ---- */

  predicate IsData(p: Port) {
    p.ValuePort? || p.Erasure? || Tuple(p)
  }

  // A duplicator meets data or another one, on either side.
  predicate CopyRule(l: Port, r: Port) {
    || l.WirePort? || r.WirePort?
    || (Copier(l) && (Copier(r) || IsData(r)))
    || (IsData(l) && Copier(r))
  }

  ghost predicate Copying(states: seq<System>, moves: seq<Move>)
    requires |states| == |moves| + 1
  {
    forall i :: 0 <= i < |moves| ==>
      !moves[i].Expand?
      && (moves[i].Start? && moves[i].pair < |states[i].net.pairs| ==>
            var (l, r) := states[i].net.pairs[moves[i].pair];
            CopyRule(l, r))
  }

  lemma CopyingIsSound(states: seq<System>, moves: seq<Move>)
    requires |states| == |moves| + 1 && Copying(states, moves)
    ensures SoundRun(Classes(), states, moves)
  {
    ClassesCommute();
    forall i | 0 <= i < |moves| && moves[i].Start? && moves[i].pair < |states[i].net.pairs|
      ensures var (l, r) := states[i].net.pairs[moves[i].pair]; Sound(Classes(), l, r)
    {
      var (l, r) := states[i].net.pairs[moves[i].pair];
      assert CopyRule(l, r);
    }
  }

  /* ---- Reading a finished tree off the net ---- */

  // The tree hanging on w, through at most n forwarding wires in a row.
  predicate Spells(net: Net, w: Wire, t: Tree, n: nat)
    decreases t, n
  {
    w in net.target && w !in net.spent
    && match net.target[w]
       case WirePort(u) => n > 0 && Spells(net, u, t, n - 1)
       case ValuePort(v) => t == Data(v)
       case Erasure(_) => t == Hole
       case Comb(tag, a, b) => tag == "x" && t.Tupled? && Spells(net, a, t.left, n) && Spells(net, b, t.right, n)
       case _ => false
  }

  lemma {:induction false} SpellingIsSolved(s: System, w: Wire, t: Tree, n: nat, tau: Wire -> Mirrored)
    requires Solves(Classes(), s, tau) && Spells(s.net, w, t, n)
    ensures tau(w) == Class(t)
    decreases t, n
  {
    assert w in Live(s.net) && Accepts(Classes(), s.net.target[w], tau(w), tau);
    match s.net.target[w]
    case WirePort(u) => SpellingIsSolved(s, u, t, n - 1, tau);
    case Comb(_, a, b) =>
      SpellingIsSolved(s, a, t.left, n, tau);
      SpellingIsSolved(s, b, t.right, n, tau);
      ClassOfTuple(t.left, t.right);
    case _ =>
  }

  /** In every schedule of copying, crossed or not, a finished tree on one of the
      initial wires is the tree the initial net gives it, up to mirroring. */
  lemma CopiesAreMirrors(states: seq<System>, moves: seq<Move>, rho: Wire -> Tree, i: nat, w: Wire, t: Tree, n: nat)
    requires Run(map[], states, moves) && Copying(states, moves) && i < |states|
    requires Linear(states[0]) && Solves(Exact(), states[0], rho) && w < states[0].next
    requires Spells(states[i].net, w, t, n)
    ensures Mirrors(t, rho(w))
  {
    BlurSolves(states[0], rho);
    CopyingIsSound(states, moves);
    var tau := RunSolves(Classes(), map[], states, moves, Blurred(rho), i);
    SpellingIsSolved(states[i], w, t, n, tau);
    MirrorsItself(t);
    assert t in tau(w) && tau(w) == Class(rho(w));
  }

  /** Mirroring keeps the leaves, holes among them: no copy gains, loses or changes
      one. */
  lemma {:induction false} MirrorsKeepLeaves(t: Tree, u: Tree, leaf: Tree)
    requires Mirrors(t, u)
    ensures Leaves(t, leaf) == Leaves(u, leaf)
    decreases t
  {
    if t.Tupled? {
      if Mirrors(t.left, u.left) && Mirrors(t.right, u.right) {
        MirrorsKeepLeaves(t.left, u.left, leaf);
        MirrorsKeepLeaves(t.right, u.right, leaf);
      } else {
        MirrorsKeepLeaves(t.left, u.right, leaf);
        MirrorsKeepLeaves(t.right, u.left, leaf);
      }
    }
  }

  /** The two outputs of a duplicator of the initial net: finished trees on them
      mirror the one tree it faced, and have exactly its leaves. */
  lemma BothCopies(states: seq<System>, moves: seq<Move>, rho: Wire -> Tree, p: nat,
                   i: nat, t1: Tree, n1: nat, t2: Tree, n2: nat, leaf: Tree)
    requires Run(map[], states, moves) && Copying(states, moves) && i < |states|
    requires Linear(states[0]) && Solves(Exact(), states[0], rho) && p < |states[0].net.pairs|
    requires var l := states[0].net.pairs[p].0;
             Copier(l) && Spells(states[i].net, l.left, t1, n1) && Spells(states[i].net, l.right, t2, n2)
    ensures var (l, r) := states[0].net.pairs[p];
            var source := rho(l.left);
            && Accepts(Exact(), r, source, rho)
            && Mirrors(t1, source) && Mirrors(t2, source)
            && Leaves(t1, leaf) == Leaves(t2, leaf) == Leaves(source, leaf)
  {
    var (l, r) := states[0].net.pairs[p];
    assert Consistent(Exact(), AtPort(l), AtPort(r), rho);
    PairsAreBelow(states[0], p);
    assert TargetCount(AtPort(l), l.left) >= 1 && TargetCount(AtPort(l), l.right) >= 1;
    CopiesAreMirrors(states, moves, rho, i, l.left, t1, n1);
    CopiesAreMirrors(states, moves, rho, i, l.right, t2, n2);
    MirrorsKeepLeaves(t1, rho(l.left), leaf);
    MirrorsKeepLeaves(t2, rho(l.left), leaf);
  }
}
