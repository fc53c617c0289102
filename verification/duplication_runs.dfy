/** Duplication run to the end: both outputs get the same finished tree, which
    mirrors the one that was copied. Which halves were exchanged is the schedule's
    choice, so the two trees are read backwards, from the last state to the first. */
module DuplicationRuns {
  import opened Options
  import opened Nets
  import opened Interactions
  import Templates
  import opened Machine
  import opened Solutions
  import opened Determinacy
  import opened Duplication
  import opened Tallies
  import opened CopyRuns

  /* ---- What a port says of the finished trees ---- */

  // A copier's outputs get one tree, which mirrors what it faces.
  predicate Admits(p: Port, t: Tree, sigma: Wire -> Tree) {
    match p
    case WirePort(w) => sigma(w) == t
    case ValuePort(v) => t == Data(v)
    case Erasure(_) => t == Hole
    case Comb(tag, a, b) =>
      if Copies(tag) then sigma(a) == sigma(b) && Mirrors(sigma(a), t) else t == Tupled(sigma(a), sigma(b))
    case _ => true
  }

  predicate AdmitsAt(x: Target, t: Tree, sigma: Wire -> Tree) {
    match x
    case AtWire(w) => sigma(w) == t
    case AtPort(p) => Admits(p, t, sigma)
  }

  ghost predicate Agrees(link: Link, sigma: Wire -> Tree) {
    exists t :: AdmitsAt(link.0, t, sigma) && AdmitsAt(link.1, t, sigma)
  }

  ghost predicate PairAgrees(pair: Pair, sigma: Wire -> Tree) {
    exists t :: Admits(pair.0, t, sigma) && Admits(pair.1, t, sigma)
  }

  ghost predicate Reads(s: System, sigma: Wire -> Tree) {
    && (forall w :: w in Live(s.net) ==> Admits(s.net.target[w], sigma(w), sigma))
    && (forall i :: 0 <= i < |s.net.pairs| ==> PairAgrees(s.net.pairs[i], sigma))
    && (forall k, j :: 0 <= k < |s.inflight| && 0 <= j < |s.inflight[k]| ==> Agrees(s.inflight[k][j], sigma))
  }

  /* ---- A reading of the state after a step is one of the state before ---- */

  // Changing an unused wire changes nothing.
  lemma AdmitsWithout(p: Port, t: Tree, sigma: Wire -> Tree, tau: Wire -> Tree, v: Wire)
    requires PortCount(p, v) == 0 && forall w: Wire :: w != v ==> sigma(w) == tau(w)
    ensures Admits(p, t, sigma) <==> Admits(p, t, tau)
  {
  }

  lemma AgreesWithout(link: Link, sigma: Wire -> Tree, tau: Wire -> Tree, v: Wire)
    requires LinkCount(link, v) == 0 && (forall w: Wire :: w != v ==> sigma(w) == tau(w)) && Agrees(link, sigma)
    ensures Agrees(link, tau)
  {
    var t :| AdmitsAt(link.0, t, sigma) && AdmitsAt(link.1, t, sigma);
    if link.0.AtPort? {
      AdmitsWithout(link.0.port, t, sigma, tau, v);
    }
    if link.1.AtPort? {
      AdmitsWithout(link.1.port, t, sigma, tau, v);
    }
    assert AdmitsAt(link.0, t, tau) && AdmitsAt(link.1, t, tau);
  }

  lemma PairAgreesWithout(pair: Pair, sigma: Wire -> Tree, tau: Wire -> Tree, v: Wire)
    requires PortCount(pair.0, v) == 0 && PortCount(pair.1, v) == 0 && PairAgrees(pair, sigma)
    requires forall w: Wire :: w != v ==> sigma(w) == tau(w)
    ensures PairAgrees(pair, tau)
  {
    var t :| Admits(pair.0, t, sigma) && Admits(pair.1, t, sigma);
    AdmitsWithout(pair.0, t, sigma, tau, v);
    AdmitsWithout(pair.1, t, sigma, tau, v);
  }

  function Set(sigma: Wire -> Tree, v: Wire, t: Tree): Wire -> Tree {
    (w: Wire) => if w == v then t else sigma(w)
  }

  // Two ends that met on v agree on a tree: that is what v carried.
  lemma MeetingReadsBack(s: System, k: nat, v: Wire, tau: Wire -> Tree) returns (sigma: Wire -> Tree)
    requires MeetsAt(s, k, v) && v in s.net.target && v !in s.net.spent && Reads(Step(map[], s, Act(k)), tau)
    ensures Reads(s, sigma) && forall w: Wire :: w != v ==> sigma(w) == tau(w)
  {
    var s' := Step(map[], s, Act(k));
    var link := s.inflight[k][0];
    var p, q := s.net.target[v], Arriving(link);
    LastReference(s, k, v);
    assert s'.net == ConnectWireToPort(s.net, v, q) && s'.net.pairs[|s.net.pairs|] == (p, q);
    assert PairAgrees((p, q), tau);
    var t :| Admits(p, t, tau) && Admits(q, t, tau);
    sigma := Set(tau, v, t);
    assert PortCount(q, v) == 0;
    NotInTargets(s.net, v, v);
    AdmitsWithout(p, t, tau, sigma, v);
    AdmitsWithout(q, t, tau, sigma, v);
    assert AdmitsAt(link.0, t, sigma) && AdmitsAt(link.1, t, sigma);
    forall w | w in Live(s.net) ensures Admits(s.net.target[w], sigma(w), sigma) {
      if w != v {
        NotInTargets(s.net, w, v);
        assert w in Live(s'.net);
        AdmitsWithout(s.net.target[w], tau(w), tau, sigma, v);
      }
    }
    forall i | 0 <= i < |s.net.pairs| ensures PairAgrees(s.net.pairs[i], sigma) {
      NotInPairs(s.net, i, v);
      assert s'.net.pairs[i] == s.net.pairs[i];
      PairAgreesWithout(s.net.pairs[i], tau, sigma, v);
    }
    OthersReadBack(s, k, v, tau, sigma);
  }

  lemma OthersReadBack(s: System, k: nat, v: Wire, tau: Wire -> Tree, sigma: Wire -> Tree)
    requires MeetsAt(s, k, v) && v in s.net.target && Reads(Step(map[], s, Act(k)), tau)
    requires (forall w: Wire :: w != v ==> sigma(w) == tau(w)) && Agrees(s.inflight[k][0], sigma)
    ensures forall i, j :: 0 <= i < |s.inflight| && 0 <= j < |s.inflight[i]| ==> Agrees(s.inflight[i][j], sigma)
  {
    var s' := Step(map[], s, Act(k));
    forall i, j | 0 <= i < |s.inflight| && 0 <= j < |s.inflight[i]| ensures Agrees(s.inflight[i][j], sigma) {
      if i != k || j > 0 {
        NotInOthers(s, k, v, i, j);
        assert s.inflight[i][j] == s'.inflight[i][if i == k then j - 1 else j];
        AgreesWithout(s.inflight[i][j], tau, sigma, v);
      }
    }
  }

  lemma SettingReadsBack(s: System, k: nat, v: Wire, tau: Wire -> Tree)
    requires MeetsAt(s, k, v) && v !in s.net.target && v !in s.net.spent && Reads(Step(map[], s, Act(k)), tau)
    ensures Reads(s, tau)
  {
    var s' := Step(map[], s, Act(k));
    var link := s.inflight[k][0];
    assert s'.net == ConnectWireToPort(s.net, v, Arriving(link));
    assert v in Live(s'.net) && Admits(Arriving(link), tau(v), tau);
    assert AdmitsAt(link.0, tau(v), tau) && AdmitsAt(link.1, tau(v), tau);
    forall w | w in Live(s.net) ensures Admits(s.net.target[w], tau(w), tau) {
      assert w in Live(s'.net);
    }
    forall i, j | 0 <= i < |s.inflight| && 0 <= j < |s.inflight[i]| ensures Agrees(s.inflight[i][j], tau) {
      if i != k || j > 0 {
        assert s.inflight[i][j] == s'.inflight[i][if i == k then j - 1 else j];
      }
    }
  }

  // The outputs of a commutation, read back: each half was copied alike, and
  // crossing exchanged the halves of both copies.
  lemma CommuteReadsBack(l: Port, r: Port, n: Wire, tau: Wire -> Tree)
    requires Commutes(l, r)
    requires forall j :: 0 <= j < 8 ==> Agrees(CommuteOrAnnihilate(l, r, n)[j], tau)
    ensures PairAgrees((l, r), tau)
  {
    var k := CommuteOrAnnihilate(l, r, n);
    assert Agrees(k[0], tau) && Agrees(k[1], tau) && Agrees(k[2], tau) && Agrees(k[3], tau);
    assert tau(n) == tau(n + 5) && tau(n + 1) == tau(n + 7) && tau(n + 2) == tau(n + 4) && tau(n + 3) == tau(n + 6);
    assert Agrees(k[4], tau) && Agrees(k[5], tau) && Agrees(k[6], tau) && Agrees(k[7], tau);
    if Copier(l) {
      var t := Tupled(tau(r.left), tau(r.right));
      assert tau(l.left) == Tupled(tau(n + 4), tau(n + 5)) && tau(l.right) == Tupled(tau(n + 6), tau(n + 7));
      assert Admits(l, t, tau) && Admits(r, t, tau);
    } else {
      var t := Tupled(tau(l.left), tau(l.right));
      assert tau(r.left) == Tupled(tau(n), tau(n + 1)) && tau(r.right) == Tupled(tau(n + 2), tau(n + 3));
      assert Admits(l, t, tau) && Admits(r, t, tau);
    }
  }

  lemma RuleReadsBack(pl: Plan, s: System, i: nat, tau: Wire -> Tree)
    requires Right(pl, s) && i < |s.net.pairs| && Enabled(map[], s, Start(i))
    requires var (l, r) := s.net.pairs[i];
             var links := Interact(l, r, Observed(s.net, l, r), s.next).value;
             forall j :: 0 <= j < |links| ==> Agrees(links[j], tau)
    ensures PairAgrees(s.net.pairs[i], tau)
  {
    var p, data := RuleOf(pl, s, i);
    var (l, r) := s.net.pairs[i];
    var links := Interact(l, r, Observed(s.net, l, r), s.next).value;
    if Copier(p) && Tuple(data) {
      CommuteReadsBack(l, r, s.next, tau);
    } else {
      assert Agrees(links[0], tau);
      var t :| AdmitsAt(links[0].0, t, tau) && AdmitsAt(links[0].1, t, tau);
      if Copier(p) {
        assert Agrees(links[1], tau);
        MirrorsItself(t);
      }
      assert Admits(p, t, tau) && Admits(data, t, tau);
    }
  }

  lemma StartReadsBack(pl: Plan, s: System, i: nat, tau: Wire -> Tree)
    requires Right(pl, s) && i < |s.net.pairs| && Enabled(map[], s, Start(i)) && Reads(Step(map[], s, Start(i)), tau)
    ensures Reads(s, tau)
  {
    var (l, r) := s.net.pairs[i];
    var s' := Step(map[], s, Start(i));
    assert s'.inflight[|s.inflight|] == Interact(l, r, Observed(s.net, l, r), s.next).value;
    RuleReadsBack(pl, s, i, tau);
    assert Live(s'.net) == Live(s.net);
    forall j | 0 <= j < |s.net.pairs| ensures PairAgrees(s.net.pairs[j], tau) {
      if j != i {
        assert s.net.pairs[j] == s'.net.pairs[if j < i then j else j - 1];
      }
    }
    forall k, j | 0 <= k < |s.inflight| && 0 <= j < |s.inflight[k]| ensures Agrees(s.inflight[k][j], tau) {
      assert s'.inflight[k] == s.inflight[k];
    }
  }

  // Only a wire with both ends used changes its reading.
  lemma StepReadsBack(pl: Plan, s: System, move: Move, tau: Wire -> Tree) returns (sigma: Wire -> Tree)
    requires Good(pl, s) && Enabled(map[], s, move) && !move.Expand? && Reads(Step(map[], s, move), tau)
    ensures Reads(s, sigma) && forall w: Wire :: OneEnd(s, w) ==> sigma(w) == tau(w)
  {
    match move
    case Start(i) =>
      StartReadsBack(pl, s, i, tau);
      sigma := tau;
    case Act(k) =>
      var v := NextIsRight(pl, s, k);
      if v in s.net.target {
        sigma := MeetingReadsBack(s, k, v, tau);
        assert !OneEnd(s, v) by { NotOneEnd(s, k, v); }
      } else {
        SettingReadsBack(s, k, v, tau);
        sigma := tau;
      }
  }

  lemma NotOneEnd(s: System, k: nat, v: Wire)
    requires MeetsAt(s, k, v) && v in s.net.target
    ensures !OneEnd(s, v)
  {
    LastReference(s, k, v);
  }

  lemma StepKeepsEnd(s: System, move: Move, w: Wire)
    requires Linear(s) && OneEnd(s, w) && Enabled(map[], s, move) && !move.Expand?
    ensures OneEnd(Step(map[], s, move), w)
  {
    match move
    case Start(i) => StartKeepsEnd(map[], s, i, w);
    case Act(k) => ActKeepsEnd(map[], s, k, w);
  }

  lemma {:induction false} EndsStay(states: seq<System>, moves: seq<Move>, w: Wire, i: nat)
    requires Run(map[], states, moves) && Linear(states[0]) && OneEnd(states[0], w) && i < |states|
    ensures OneEnd(states[i], w)
    decreases i
  {
    if i > 0 {
      EndsStay(states, moves, w, i - 1);
      RunsStayLinear(map[], states, moves, i - 1);
      NoExpansions(states, moves);
      assert Enabled(map[], states[i - 1], moves[i - 1]);
      StepKeepsEnd(states[i - 1], moves[i - 1], w);
    }
  }

  /** A reading of any state of a run is, but for the wires used up on the way, one
      of its first state. */
  lemma {:induction false} RunReadsBack(states: seq<System>, moves: seq<Move>, rank: Wire -> nat,
                                        dup: Port, source: Port, n: nat, i: nat, tau: Wire -> Tree)
    returns (sigma: Wire -> Tree)
    requires Run(map[], states, moves) && Poised(states[0], rank, dup, source, n) && i < |states|
    requires Reads(states[i], tau)
    ensures Reads(states[0], sigma) && sigma(dup.left) == tau(dup.left) && sigma(dup.right) == tau(dup.right)
    decreases i
  {
    hide Linear, Right, FedOnce, Reads, OneEnd, Finished, HalvesBelow, Step;
    if i == 0 {
      sigma := tau;
    } else {
      var s, move := states[i - 1], moves[i - 1];
      RunIsGood(states, moves, rank, dup, source, n, i - 1);
      NoExpansions(states, moves);
      assert Enabled(map[], s, move);
      var before := StepReadsBack(PlanOf(states, moves, rank), s, move, tau);
      EndsStay(states, moves, dup.left, i - 1);
      EndsStay(states, moves, dup.right, i - 1);
      sigma := RunReadsBack(states, moves, rank, dup, source, n, i - 1, before);
    }
  }

  /* ---- The last state ---- */

  function Size(t: Tree): nat {
    if t.Tupled? then 1 + Size(t.left) + Size(t.right) else 1
  }

  function Big(m: nat): (t: Tree)
    ensures Size(t) > m
  {
    if m == 0 then Hole else Tupled(Hole, Big(m - 1))
  }

  lemma {:induction false} MirrorsKeepSize(t: Tree, u: Tree)
    requires Mirrors(t, u)
    ensures Size(t) == Size(u)
    decreases t
  {
    if t.Tupled? {
      if Mirrors(t.left, u.left) && Mirrors(t.right, u.right) {
        MirrorsKeepSize(t.left, u.left);
        MirrorsKeepSize(t.right, u.right);
      } else {
        MirrorsKeepSize(t.left, u.right);
        MirrorsKeepSize(t.right, u.left);
      }
    }
  }

  // How far down the order w is.
  function Height(pl: Plan, s: System, w: Wire): nat {
    if w < pl.base then s.next + pl.rank(w) else if w < s.next then s.next - w else 0
  }

  lemma TargetsDescend(pl: Plan, s: System, w: Wire)
    requires Linear(s) && Right(pl, s) && w in Live(s.net)
    ensures var p := s.net.target[w];
            && w < s.next
            && (p.WirePort? ==> pl.base <= w < p.wire && Height(pl, s, p.wire) < Height(pl, s, w))
            && (p.Comb? ==> Height(pl, s, p.left) < Height(pl, s, w) && Height(pl, s, p.right) < Height(pl, s, w))
  {
    var p := s.net.target[w];
    TargetsAreBelow(s, w);
    assert RightTarget(pl, w, p);
    if p.Comb? {
      assert TargetCount(AtPort(p), p.left) > 0 && TargetCount(AtPort(p), p.right) > 0;
    }
  }

  // The tree on w, were `rest` on every wire that is not set.
  ghost function Completed(pl: Plan, s: System, rest: Tree, w: Wire): Tree
    requires Linear(s) && Right(pl, s)
    decreases Height(pl, s, w)
  {
    if w !in Live(s.net) then rest
    else
      TargetsDescend(pl, s, w);
      match s.net.target[w]
      case ValuePort(v) => Data(v)
      case WirePort(u) => Completed(pl, s, rest, u)
      case Comb(_, a, b) => Tupled(Completed(pl, s, rest, a), Completed(pl, s, rest, b))
      case _ => Hole
  }

  lemma CompletedReads(pl: Plan, s: System, rest: Tree)
    requires Good(pl, s) && Quiescent(map[], s)
    ensures Reads(s, (w: Wire) => Completed(pl, s, rest, w))
  {
    NothingIsPending(pl, s);
    forall w | w in Live(s.net)
      ensures Admits(s.net.target[w], Completed(pl, s, rest, w), (w: Wire) => Completed(pl, s, rest, w))
    {
      assert RightTarget(pl, w, s.net.target[w]);
    }
  }

  // A tree too small to contain `rest` is finished.
  lemma {:induction false} SmallIsSpelled(pl: Plan, s: System, rest: Tree, w: Wire, n: nat)
    requires Linear(s) && Right(pl, s) && Size(Completed(pl, s, rest, w)) < Size(rest)
    requires n + (if w < pl.base then 0 else w) >= s.next
    ensures Spells(s.net, w, Completed(pl, s, rest, w), n)
    decreases Height(pl, s, w)
  {
    assert w in Live(s.net);
    TargetsDescend(pl, s, w);
    assert RightTarget(pl, w, s.net.target[w]);
    match s.net.target[w]
    case WirePort(u) => SmallIsSpelled(pl, s, rest, u, n - 1);
    case Comb(_, a, b) =>
      HalvesAreLater(pl, w, s.net.target[w]);
      SmallIsSpelled(pl, s, rest, a, n);
      SmallIsSpelled(pl, s, rest, b, n);
    case _ =>
  }

  lemma HalvesAreLater(pl: Plan, w: Wire, p: Port)
    requires After(pl, w, p) && p.Comb?
    ensures w >= pl.base ==> p.left > w && p.right > w
  {
  }

  lemma {:induction false} SpelledOnce(net: Net, w: Wire, t: Tree, n: nat, u: Tree, m: nat)
    requires Spells(net, w, t, n) && Spells(net, w, u, m)
    ensures t == u
    decreases t, n
  {
    match net.target[w]
    case WirePort(v) => SpelledOnce(net, v, t, n - 1, u, m - 1);
    case Comb(_, a, b) =>
      SpelledOnce(net, a, t.left, n, u.left, m);
      SpelledOnce(net, b, t.right, n, u.right, m);
    case _ =>
  }

  /* ---- The first state ---- */

  lemma {:induction false} SourceReads(s: System, rank: Wire -> nat, n: nat, p: Port, t: Tree, sigma: Wire -> Tree)
    requires Finished(s.net, rank) && IsData(p) && HalvesBelow(s.net, rank, n, p)
    requires Reads(s, sigma) && Admits(p, t, sigma)
    ensures t == TreeAt(s.net, rank, n, p)
    decreases n
  {
    if p.Comb? {
      SourceReads(s, rank, rank(p.left), s.net.target[p.left], sigma(p.left), sigma);
      SourceReads(s, rank, rank(p.right), s.net.target[p.right], sigma(p.right), sigma);
    }
  }

  /** Duplication is complete: where no step is left, one and the same finished tree
      is on both outputs, whatever the schedule. It mirrors the tree that was copied
      and has all its leaves, erased ones included. */
  lemma DuplicationCompletes(states: seq<System>, moves: seq<Move>, rank: Wire -> nat,
                             dup: Port, source: Port, n: nat, i: nat) returns (t: Tree)
    requires Run(map[], states, moves) && Poised(states[0], rank, dup, source, n) && i < |states|
    requires Quiescent(map[], states[i])
    ensures Spells(states[i].net, dup.left, t, states[i].next) && Spells(states[i].net, dup.right, t, states[i].next)
    ensures forall u, m :: Spells(states[i].net, dup.left, u, m) || Spells(states[i].net, dup.right, u, m) ==> u == t
    ensures Mirrors(t, TreeAt(states[0].net, rank, n, source))
    ensures forall leaf :: Leaves(t, leaf) == Leaves(TreeAt(states[0].net, rank, n, source), leaf)
  {
    var pl, s, s' := PlanOf(states, moves, rank), states[0], states[i];
    var T := TreeAt(s.net, rank, n, source);
    var rest := Big(Size(T));
    RunIsGood(states, moves, rank, dup, source, n, i);
    var tau := (w: Wire) => Completed(pl, s', rest, w);
    CompletedReads(pl, s', rest);
    var sigma := RunReadsBack(states, moves, rank, dup, source, n, i, tau);
    t := tau(dup.left);
    OriginalReads(s, rank, dup, source, n, sigma);
    MirrorsKeepSize(t, T);
    SmallIsSpelled(pl, s', rest, dup.left, s'.next);
    SmallIsSpelled(pl, s', rest, dup.right, s'.next);
    forall u, m | Spells(s'.net, dup.left, u, m) || Spells(s'.net, dup.right, u, m) ensures u == t {
      if Spells(s'.net, dup.left, u, m) {
        SpelledOnce(s'.net, dup.left, t, s'.next, u, m);
      } else {
        SpelledOnce(s'.net, dup.right, t, s'.next, u, m);
      }
    }
    forall leaf ensures Leaves(t, leaf) == Leaves(T, leaf) {
      MirrorsKeepLeaves(t, T, leaf);
    }
  }

  lemma OriginalReads(s: System, rank: Wire -> nat, dup: Port, source: Port, n: nat, sigma: Wire -> Tree)
    requires Poised(s, rank, dup, source, n) && Reads(s, sigma)
    ensures sigma(dup.left) == sigma(dup.right) && Mirrors(sigma(dup.left), TreeAt(s.net, rank, n, source))
  {
    assert PairAgrees(s.net.pairs[0], sigma);
    var t :| Admits(s.net.pairs[0].0, t, sigma) && Admits(s.net.pairs[0].1, t, sigma);
    SourceReads(s, rank, n, source, t, sigma);
  }

  /* ---- Every tree can be planted ---- */

  datatype Planting = Planting(root: Port, below: map<Wire, Port>, next: Wire)

  function Plant(t: Tree, next: Wire): Planting {
    match t
    case Data(v) => Planting(ValuePort(v), map[], next)
    case Hole => Planting(Erasure(false), map[], next)
    case Tupled(a, b) =>
      var l := Plant(a, next + 2);
      var r := Plant(b, l.next);
      Planting(Comb("x", next, next + 1), l.below + r.below + map[next := l.root, next + 1 := r.root], r.next)
  }

  function Planted(t: Tree): System {
    System(Net(Plant(t, 2).below, {}, [(Comb("dup", 0, 1), Plant(t, 2).root)]), [], Plant(t, 2).next)
  }

  // Tuples of the planting have their halves in it, on higher wires.
  predicate Rooted(below: map<Wire, Port>, lo: Wire, p: Port) {
    IsData(p) && (p.Comb? ==> p.left >= lo && p.right >= lo && p.left in below && p.right in below)
  }

  predicate WellPlanted(p: Planting, next: Wire) {
    && p.next >= next && Rooted(p.below, next, p.root)
    && forall w :: w in p.below ==> next <= w < p.next && Rooted(p.below, w + 1, p.below[w])
  }

  lemma {:induction false} PlantShape(t: Tree, next: Wire)
    ensures WellPlanted(Plant(t, next), next)
  {
    if t.Tupled? {
      PlantShape(t.left, next + 2);
      PlantShape(t.right, Plant(t.left, next + 2).next);
    }
  }

  function Joined(l: Planting, r: Planting, next: Wire): map<Wire, Port> {
    l.below + r.below + map[next := l.root, next + 1 := r.root]
  }

  lemma JoinedCount(l: Planting, r: Planting, next: Wire, w: Wire)
    requires WellPlanted(l, next + 2) && WellPlanted(r, l.next)
    ensures MapCount(Joined(l, r, next), w)
         == MapCount(l.below, w) + PortCount(l.root, w) + MapCount(r.below, w) + PortCount(r.root, w)
  {
    var both: map<Wire, Port> := l.below + r.below;
    assert both[next := l.root][next + 1 := r.root] == Joined(l, r, next);
    assert next !in both && next + 1 !in both && l.below.Keys !! r.below.Keys;
    hide MapCount, PortCount, WellPlanted, Joined;
    Templates.MapCountUnion(l.below, r.below, w);
    MapCountAdd(both, next, l.root, w);
    MapCountAdd(both[next := l.root], next + 1, r.root, w);
  }

  // The references of a planting, and of the port it hangs on.
  ghost function Counted(p: Planting, w: Wire): nat {
    MapCount(p.below, w) + PortCount(p.root, w)
  }

  lemma TupleCounted(a: Tree, b: Tree, next: Wire, w: Wire)
    ensures var l := Plant(a, next + 2);
            var r := Plant(b, l.next);
            Counted(Plant(Tupled(a, b), next), w) == Counted(l, w) + Counted(r, w) + One(next, w) + One(next + 1, w)
            && next + 2 <= l.next <= r.next == Plant(Tupled(a, b), next).next
  {
    var l := Plant(a, next + 2);
    var r := Plant(b, l.next);
    PlantShape(a, next + 2);
    PlantShape(b, l.next);
    JoinedCount(l, r, next, w);
    assert Plant(Tupled(a, b), next).below == Joined(l, r, next);
  }

  lemma LeafCounted(t: Tree, next: Wire, w: Wire)
    requires !t.Tupled?
    ensures Counted(Plant(t, next), w) == 0 && Plant(t, next).next == next
  {
  }

  lemma {:induction false} PlantCount(t: Tree, next: Wire, w: Wire)
    ensures Counted(Plant(t, next), w) == if next <= w < Plant(t, next).next then 1 else 0
  {
    hide Counted, Plant;
    if !t.Tupled? {
      LeafCounted(t, next, w);
    } else {
      TupleCounted(t.left, t.right, next, w);
      PlantCount(t.left, next + 2, w);
      PlantCount(t.right, Plant(t.left, next + 2).next, w);
    }
  }

  lemma HalvesAreFinished(net: Net, rank: Wire -> nat, w: Wire)
    requires Finished(net, rank) && w in Live(net)
    ensures IsData(net.target[w]) && HalvesBelow(net, rank, rank(w), net.target[w])
  {
  }

  lemma PlantUnfolds(t: Tree, next: Wire)
    ensures !t.Tupled? ==>
              Plant(t, next) == Planting(if t.Data? then ValuePort(t.value) else Erasure(false), map[], next)
    ensures t.Tupled? ==>
              var l := Plant(t.left, next + 2);
              var r := Plant(t.right, l.next);
              Plant(t, next) == Planting(Comb("x", next, next + 1), Joined(l, r, next), r.next)
  {
  }

  lemma {:induction false} PlantedTree(net: Net, rank: Wire -> nat, n: nat, t: Tree, next: Wire)
    requires var p := Plant(t, next);
             && Finished(net, rank) && IsData(p.root) && HalvesBelow(net, rank, n, p.root)
             && forall w :: w in p.below ==> w in net.target && net.target[w] == p.below[w]
    ensures TreeAt(net, rank, n, Plant(t, next).root) == t
    decreases t
  {
    hide Finished, Rooted, Plant;
    PlantUnfolds(t, next);
    if t.Tupled? {
      var p, l := Plant(t, next), Plant(t.left, next + 2);
      PlantShape(t.left, next + 2);
      PlantShape(t.right, l.next);
      assert next in p.below && next + 1 in p.below;
      HalvesAreFinished(net, rank, next);
      HalvesAreFinished(net, rank, next + 1);
      PlantedTree(net, rank, rank(next), t.left, next + 2);
      PlantedTree(net, rank, rank(next + 1), t.right, l.next);
    }
  }

  lemma PlantedCount(t: Tree, w: Wire)
    ensures var s := Planted(t);
            NetCount(s.net, w) + InflightCount(s.inflight, w) == if w < s.next then 1 else 0
  {
    var s := Planted(t);
    PlantShape(t, 2);
    assert Live(s.net) == Plant(t, 2).below;
    PlantCount(t, 2, w);
    PairsCountRemove(s.net.pairs, 0, w);
    assert Without(s.net.pairs, 0) == [];
  }

  lemma PlantedIsLinear(t: Tree)
    ensures Linear(Planted(t)) && OneEnd(Planted(t), 0) && OneEnd(Planted(t), 1)
  {
    hide Plant, NetCount, InflightCount, Rooted;
    var s := Planted(t);
    PlantShape(t, 2);
    PlantedCount(t, 0);
    PlantedCount(t, 1);
    forall w: Wire
      ensures LinearAt(s.net, w, InflightCount(s.inflight, w))
              && (w >= s.next ==> NetCount(s.net, w) + InflightCount(s.inflight, w) == 0)
    {
      PlantedCount(t, w);
    }
  }

  lemma PlantedIsFinished(t: Tree) returns (rank: Wire -> nat)
    ensures Finished(Planted(t).net, rank) && HalvesBelow(Planted(t).net, rank, Planted(t).next, Plant(t, 2).root)
  {
    hide Plant;
    var s, p := Planted(t), Plant(t, 2);
    PlantShape(t, 2);
    assert Live(s.net) == p.below;
    rank := (w: Wire) => if w < p.next then p.next - 1 - w else 0;
    forall w | w in Live(s.net)
      ensures IsData(s.net.target[w]) && HalvesBelow(s.net, rank, rank(w), s.net.target[w])
    {
      assert Rooted(p.below, w + 1, p.below[w]);
    }
  }

  /** So a duplicator can face any tree at all, and both outputs get a mirror of it. */
  lemma PlantedIsPoised(t: Tree) returns (rank: Wire -> nat)
    ensures Poised(Planted(t), rank, Comb("dup", 0, 1), Plant(t, 2).root, Planted(t).next)
    ensures TreeAt(Planted(t).net, rank, Planted(t).next, Plant(t, 2).root) == t
  {
    hide Plant, NetCount, InflightCount, Finished;
    var s, p := Planted(t), Plant(t, 2);
    PlantShape(t, 2);
    PlantedIsLinear(t);
    rank := PlantedIsFinished(t);
    PlantedTree(s.net, rank, s.next, t, 2);
  }
}
