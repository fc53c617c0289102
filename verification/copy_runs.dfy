/** A duplicator facing a finished tree, run in every order: what can be where on
    the way, and that it stops. */
module CopyRuns {
  import opened Options
  import opened Nets
  import opened Interactions
  import opened Machine
  import opened Solutions
  import opened Determinacy
  import opened Duplication
  import opened Tallies

  /* The tree being copied lives on wires below `base`, each of higher rank than
     those below it. Each rule takes the next block of eight wires; `into` tells
     which of them pass data on that arrives at their partner. */
  datatype Plan = Plan(base: Wire, rank: Wire -> nat, into: Wire -> bool)

  // Fresh wires are ordered by block, after all those of the tree.
  function Block(pl: Plan, w: Wire): int {
    if w < pl.base then -1 - pl.rank(w) else (w - pl.base) / FRESH
  }

  /* ---- What may be where ---- */

  // A finished tree t below w, and below a port.
  ghost predicate Grown(pl: Plan, net: Net, w: Wire, t: Tree)
    decreases t, 1
  {
    w < pl.base && w in Live(net) && GrownPort(pl, net, net.target[w], t)
  }

  ghost predicate GrownPort(pl: Plan, net: Net, p: Port, t: Tree)
    decreases t, 0
  {
    match p
    case ValuePort(v) => t == Data(v)
    case Erasure(_) => t == Hole
    case Comb(tag, a, b) => tag == "x" && t.Tupled? && Grown(pl, net, a, t.left) && Grown(pl, net, b, t.right)
    case _ => false
  }

  // Data for w: its halves come later in the order.
  ghost predicate After(pl: Plan, w: Wire, p: Port) {
    IsData(p) && (p.Comb? ==> Block(pl, p.left) > Block(pl, w) && Block(pl, p.right) > Block(pl, w))
  }

  ghost predicate Forwards(pl: Plan, w: Wire, p: Port) {
    p.WirePort? && pl.base <= w < p.wire && Block(pl, w) == Block(pl, p.wire)
  }

  ghost predicate RightTarget(pl: Plan, w: Wire, p: Port) {
    After(pl, w, p) || Forwards(pl, w, p)
  }

  // A connect brings data, or a copier to a finished tree.
  ghost predicate RightLink(pl: Plan, net: Net, link: Link) {
    && link.0.AtPort? != link.1.AtPort?
    && var w, p := Meets(link.0, link.1).value, Arriving(link);
       After(pl, w, p) || (Copier(p) && exists t :: Grown(pl, net, w, t))
  }

  // A duplicator and a tuple, on either side.
  predicate Commutes(l: Port, r: Port) {
    (Copier(l) && Tuple(r)) || (Tuple(l) && Copier(r))
  }

  // What is left of a commutation whose four inner connects are not all made.
  ghost predicate Commuting(pl: Plan, net: Net, links: seq<Link>, l: Port, r: Port, n: Wire, j: nat) {
    && Commutes(l, r) && n >= pl.base && (n - pl.base) % FRESH == 0 && j < 4
    && links == CommuteOrAnnihilate(l, r, n)[j..]
    && forall i :: 4 <= i < 8 ==> RightLink(pl, net, CommuteOrAnnihilate(l, r, n)[i])
  }

  ghost predicate RightLinks(pl: Plan, net: Net, links: seq<Link>) {
    || (forall j :: 0 <= j < |links| ==> RightLink(pl, net, links[j]))
    || exists l: Port, r: Port, n: Wire, j: nat :: Commuting(pl, net, links, l, r, n, j)
  }

  ghost predicate Faces(pl: Plan, net: Net, p: Port, data: Port) {
    || (Copier(p) && exists t :: GrownPort(pl, net, data, t))
    || (p.WirePort? && p.wire >= pl.base && pl.into(p.wire) && After(pl, p.wire, data))
  }

  ghost predicate RightPair(pl: Plan, net: Net, pair: Pair) {
    Faces(pl, net, pair.0, pair.1) || Faces(pl, net, pair.1, pair.0)
  }

  ghost predicate Right(pl: Plan, s: System) {
    && s.next >= pl.base && (s.next - pl.base) % FRESH == 0
    && (forall w :: w in Live(s.net) ==> RightTarget(pl, w, s.net.target[w]))
    && (forall i :: 0 <= i < |s.net.pairs| ==> RightPair(pl, s.net, s.net.pairs[i]))
    && (forall k :: 0 <= k < |s.inflight| ==> RightLinks(pl, s.net, s.inflight[k]))
  }

  /* ---- Each wire is fed once ---- */

  // Data at w, a copier that will send some there, or a wire passing it on.
  function Feeding(pl: Plan, w: Wire, p: Port): nat {
    if Copier(p) || (p.WirePort? && pl.into(p.wire)) then PortCount(p, w) else 0
  }

  function Feeds(pl: Plan, w: Wire): Weight {
    Weight((p: Port) => Feeding(pl, w, p),
           (v: Wire, p: Port) => if v == w && (IsData(p) || (p.WirePort? && !pl.into(p.wire))) then 1 else 0)
  }

  ghost predicate FedOnce(pl: Plan, s: System) {
    forall w: Wire :: Tally(Feeds(pl, w), s) <= 1
  }

  ghost predicate Good(pl: Plan, s: System) {
    Linear(s) && Right(pl, s) && FedOnce(pl, s)
  }

  // A commutation passes data inwards exactly when its duplicator stands left.
  ghost predicate Heeds(pl: Plan, s: System, move: Move) {
    move.Start? && move.pair < |s.net.pairs| && Commutes(s.net.pairs[move.pair].0, s.net.pairs[move.pair].1) ==>
      forall v: Wire :: s.next + 4 <= v < s.next + 8 ==> (pl.into(v) <==> Copier(s.net.pairs[move.pair].0))
  }

  /* ---- Starting a rule ---- */

  lemma {:induction false} GrownSame(pl: Plan, net: Net, net': Net, w: Wire, t: Tree)
    requires net.target == net'.target && net.spent == net'.spent
    ensures Grown(pl, net, w, t) <==> Grown(pl, net', w, t)
    decreases t, 1
  {
    if w in Live(net) {
      GrownPortSame(pl, net, net', net.target[w], t);
    }
  }

  lemma {:induction false} GrownPortSame(pl: Plan, net: Net, net': Net, p: Port, t: Tree)
    requires net.target == net'.target && net.spent == net'.spent
    ensures GrownPort(pl, net, p, t) <==> GrownPort(pl, net', p, t)
    decreases t, 0
  {
    if p.Comb? && t.Tupled? {
      GrownSame(pl, net, net', p.left, t.left);
      GrownSame(pl, net, net', p.right, t.right);
    }
  }

  lemma LinkSame(pl: Plan, net: Net, net': Net, link: Link)
    requires net.target == net'.target && net.spent == net'.spent && RightLink(pl, net, link)
    ensures RightLink(pl, net', link)
  {
    var w, p := Meets(link.0, link.1).value, Arriving(link);
    if !After(pl, w, p) {
      var t :| Grown(pl, net, w, t);
      GrownSame(pl, net, net', w, t);
    }
  }

  lemma LinksSame(pl: Plan, net: Net, net': Net, links: seq<Link>)
    requires net.target == net'.target && net.spent == net'.spent && RightLinks(pl, net, links)
    ensures RightLinks(pl, net', links)
  {
    if forall j :: 0 <= j < |links| ==> RightLink(pl, net, links[j]) {
      forall j | 0 <= j < |links| ensures RightLink(pl, net', links[j]) {
        LinkSame(pl, net, net', links[j]);
      }
    } else {
      var l: Port, r: Port, n: Wire, j: nat :| Commuting(pl, net, links, l, r, n, j);
      forall i | 4 <= i < 8 ensures RightLink(pl, net', CommuteOrAnnihilate(l, r, n)[i]) {
        LinkSame(pl, net, net', CommuteOrAnnihilate(l, r, n)[i]);
      }
      assert Commuting(pl, net', links, l, r, n, j);
    }
  }

  lemma FacesSame(pl: Plan, net: Net, net': Net, p: Port, data: Port)
    requires net.target == net'.target && net.spent == net'.spent && Faces(pl, net, p, data)
    ensures Faces(pl, net', p, data)
  {
    if Copier(p) {
      var t :| GrownPort(pl, net, data, t);
      GrownPortSame(pl, net, net', data, t);
    }
  }

  // What an active pair does: the copier or forwarding wire, and the data.
  lemma RuleOf(pl: Plan, s: System, i: nat) returns (p: Port, data: Port)
    requires Right(pl, s) && i < |s.net.pairs|
    ensures Faces(pl, s.net, p, data) && (s.net.pairs[i] == (p, data) || s.net.pairs[i] == (data, p))
    ensures IsData(data) && Enabled(map[], s, Start(i))
    ensures Copier(p) && Tuple(data) ==> Commutes(s.net.pairs[i].0, s.net.pairs[i].1)
    ensures var (l, r) := s.net.pairs[i];
            var links := Interact(l, r, Observed(s.net, l, r), s.next).value;
            if p.WirePort? then links == [(AtWire(p.wire), AtPort(data))]
            else if data.ValuePort? then links == [(AtWire(p.left), AtPort(data)), (AtWire(p.right), AtPort(data))]
            else if data.Erasure? then
              links == [(AtPort(Erasure(false)), AtWire(p.left)), (AtPort(Erasure(false)), AtWire(p.right))]
            else links == CommuteOrAnnihilate(l, r, s.next)
  {
    var (l, r) := s.net.pairs[i];
    assert RightPair(pl, s.net, s.net.pairs[i]);
    if Faces(pl, s.net, l, r) {
      p, data := l, r;
    } else {
      p, data := r, l;
    }
    if data.Erasure? && p.Comb? {
      EraseBoth(p.left, p.right);
      assert Wires(data) == [] && Wires(p) == [p.left, p.right] && Erase([]) == [];
      assert [] + Erase(Wires(p)) == Erase(Wires(p)) == Erase(Wires(p)) + [];
    }
  }

  lemma EraseBoth(a: Wire, c: Wire)
    ensures Erase([a, c]) == [(AtPort(Erasure(false)), AtWire(a)), (AtPort(Erasure(false)), AtWire(c))]
  {
    assert [a, c][1..] == [c] && [c][1..] == [];
    assert Erase([c]) == [(AtPort(Erasure(false)), AtWire(c))] + Erase([]);
  }

  // The outer connects of a commutation bring copiers to the tuple's halves, and
  // tuples of fresh wires to the copier's outputs.
  lemma CommuteIsRight(pl: Plan, net: Net, l: Port, r: Port, n: Wire, t: Tree)
    requires Commutes(l, r) && n >= pl.base && (n - pl.base) % FRESH == 0
    requires GrownPort(pl, net, if Copier(l) then r else l, t)
    requires var c := if Copier(l) then l else r; Block(pl, c.left) < Block(pl, n) && Block(pl, c.right) < Block(pl, n)
    ensures RightLinks(pl, net, CommuteOrAnnihilate(l, r, n))
  {
    var links := CommuteOrAnnihilate(l, r, n);
    var m := (n - pl.base) / FRESH;
    forall v: Wire | n <= v < n + 8 ensures Block(pl, v) == m {
      assert v - pl.base == FRESH * m + (v - n);
    }
    forall i | 4 <= i < 8 ensures RightLink(pl, net, links[i]) {
      assert Block(pl, n) == Block(pl, n + 2) == Block(pl, n + 4) == Block(pl, n + 6) == m;
      assert Block(pl, n + 1) == Block(pl, n + 3) == Block(pl, n + 5) == Block(pl, n + 7) == m;
    }
    assert links[0..] == links;
    assert Commuting(pl, net, links, l, r, n, 0);
  }

  // A port only refers to wires that exist, so to earlier blocks.
  lemma EarlierBlocks(pl: Plan, s: System, i: nat)
    requires Linear(s) && Right(pl, s) && i < |s.net.pairs|
    ensures forall p, w: Wire :: (p == s.net.pairs[i].0 || p == s.net.pairs[i].1) && PortCount(p, w) > 0 ==>
              w < s.next && Block(pl, w) < Block(pl, s.next)
  {
    PairsAreBelow(s, i);
    forall p, w: Wire | (p == s.net.pairs[i].0 || p == s.net.pairs[i].1) && PortCount(p, w) > 0
      ensures w < s.next && Block(pl, w) < Block(pl, s.next)
    {
      assert TargetCount(AtPort(p), w) > 0;
      if w >= pl.base {
        assert s.next - pl.base == FRESH * ((s.next - pl.base) / FRESH);
      }
    }
  }

  lemma StartLinksRight(pl: Plan, s: System, i: nat)
    requires Linear(s) && Right(pl, s) && i < |s.net.pairs| && Enabled(map[], s, Start(i))
    ensures var (l, r) := s.net.pairs[i];
            RightLinks(pl, s.net, Interact(l, r, Observed(s.net, l, r), s.next).value)
  {
    var p, data := RuleOf(pl, s, i);
    var (l, r) := s.net.pairs[i];
    EarlierBlocks(pl, s, i);
    if Copier(p) {
      assert PortCount(p, p.left) > 0 && PortCount(p, p.right) > 0;
      if Tuple(data) {
        var t :| GrownPort(pl, s.net, data, t);
        CommuteIsRight(pl, s.net, l, r, s.next, t);
      }
    }
  }

  lemma StartKeepsRight(pl: Plan, s: System, i: nat)
    requires Linear(s) && Right(pl, s) && i < |s.net.pairs|
    ensures Enabled(map[], s, Start(i)) && Right(pl, Step(map[], s, Start(i)))
  {
    var p, data := RuleOf(pl, s, i);
    var s' := Step(map[], s, Start(i));
    assert Live(s'.net) == Live(s.net);
    forall j | 0 <= j < |s'.net.pairs| ensures RightPair(pl, s'.net, s'.net.pairs[j]) {
      var pair := s'.net.pairs[j];
      assert pair == s.net.pairs[if j < i then j else j + 1];
      assert RightPair(pl, s.net, pair);
      if Faces(pl, s.net, pair.0, pair.1) {
        FacesSame(pl, s.net, s'.net, pair.0, pair.1);
      } else {
        FacesSame(pl, s.net, s'.net, pair.1, pair.0);
      }
    }
    StartLinksRight(pl, s, i);
    forall k | 0 <= k < |s'.inflight| ensures RightLinks(pl, s'.net, s'.inflight[k]) {
      assert k < |s.inflight| ==> s'.inflight[k] == s.inflight[k];
      LinksSame(pl, s.net, s'.net, s'.inflight[k]);
    }
  }

  // A tally of a commutation's eight connects.
  lemma CommuteTally(wt: Weight, l: Port, r: Port, n: Wire)
    requires l.Comb? && r.Comb? && l.tag != r.tag
    ensures var k := CommuteOrAnnihilate(l, r, n);
            LinksTally(wt, k)
            == LinkWeight(wt, k[0]) + LinkWeight(wt, k[1]) + LinkWeight(wt, k[2]) + LinkWeight(wt, k[3])
               + LinkWeight(wt, k[4]) + LinkWeight(wt, k[5]) + LinkWeight(wt, k[6]) + LinkWeight(wt, k[7])
  {
    var k := CommuteOrAnnihilate(l, r, n);
    hide LinkWeight, CommuteOrAnnihilate;
    assert |k| == 8 by { Eight(l, r, n); }
    var front, back := [k[0], k[1]] + [k[2], k[3]], [k[4], k[5]] + [k[6], k[7]];
    assert k == front + back;
    LinksTallyAppend(wt, front, back);
    LinksTallyAppend(wt, [k[0], k[1]], [k[2], k[3]]);
    LinksTallyAppend(wt, [k[4], k[5]], [k[6], k[7]]);
    TwoLinksTally(wt, k[0], k[1]);
    TwoLinksTally(wt, k[2], k[3]);
    TwoLinksTally(wt, k[4], k[5]);
    TwoLinksTally(wt, k[6], k[7]);
  }

  lemma Eight(l: Port, r: Port, n: Wire)
    requires l.Comb? && r.Comb? && l.tag != r.tag
    ensures |CommuteOrAnnihilate(l, r, n)| == 8
  {
  }

  // What a connect that brings p to v feeds w.
  function Fed(pl: Plan, w: Wire, v: Wire, p: Port): nat {
    Feeding(pl, w, p) + if v == w && (IsData(p) || (p.WirePort? && !pl.into(p.wire))) then 1 else 0
  }

  lemma LinkFeeds(pl: Plan, w: Wire, v: Wire, p: Port)
    ensures LinkWeight(Feeds(pl, w), (AtWire(v), AtPort(p))) == Fed(pl, w, v, p)
    ensures p.WirePort? ==> LinkWeight(Feeds(pl, w), (AtWire(v), AtWire(p.wire))) == Fed(pl, w, v, p)
  {
  }

  lemma CommuteTotal(pl: Plan, l: Port, r: Port, n: Wire, w: Wire)
    requires Commutes(l, r)
    ensures LinksTally(Feeds(pl, w), CommuteOrAnnihilate(l, r, n))
            == Fed(pl, w, n, WirePort(n + 5)) + Fed(pl, w, n + 1, WirePort(n + 7))
               + Fed(pl, w, n + 2, WirePort(n + 4)) + Fed(pl, w, n + 3, WirePort(n + 6))
               + Fed(pl, w, l.left, Comb(r.tag, n + 4, n + 5)) + Fed(pl, w, l.right, Comb(r.tag, n + 6, n + 7))
               + Fed(pl, w, r.left, Comb(l.tag, n, n + 1)) + Fed(pl, w, r.right, Comb(l.tag, n + 2, n + 3))
  {
    hide Fed, LinkWeight;
    CommuteTally(Feeds(pl, w), l, r, n);
    LinkFeeds(pl, w, n, WirePort(n + 5));
    LinkFeeds(pl, w, n + 1, WirePort(n + 7));
    LinkFeeds(pl, w, n + 2, WirePort(n + 4));
    LinkFeeds(pl, w, n + 3, WirePort(n + 6));
    LinkFeeds(pl, w, l.left, Comb(r.tag, n + 4, n + 5));
    LinkFeeds(pl, w, l.right, Comb(r.tag, n + 6, n + 7));
    LinkFeeds(pl, w, r.left, Comb(l.tag, n, n + 1));
    LinkFeeds(pl, w, r.right, Comb(l.tag, n + 2, n + 3));
  }

  // A rule feeds what its copier fed, and its fresh wires once.
  lemma CommuteFeeds(pl: Plan, l: Port, r: Port, n: Wire, w: Wire)
    requires Commutes(l, r) && forall v: Wire :: n + 4 <= v < n + 8 ==> (pl.into(v) <==> Copier(l))
    ensures LinksTally(Feeds(pl, w), CommuteOrAnnihilate(l, r, n))
            == PortCount(if Copier(l) then l else r, w) + if n <= w < n + FRESH then 1 else 0
  {
    hide LinksTally, CommuteOrAnnihilate;
    CommuteTotal(pl, l, r, n, w);
    assert pl.into(n + 4) == pl.into(n + 5) == pl.into(n + 6) == pl.into(n + 7) == Copier(l);
  }

  lemma StartKeepsFedOnce(pl: Plan, s: System, i: nat)
    requires Good(pl, s) && i < |s.net.pairs| && Heeds(pl, s, Start(i))
    ensures Enabled(map[], s, Start(i)) && FedOnce(pl, Step(map[], s, Start(i)))
  {
    StartKeepsRight(pl, s, i);
    forall w: Wire ensures Tally(Feeds(pl, w), Step(map[], s, Start(i))) <= 1 {
      assert Tally(Feeds(pl, w), s) <= 1;
      StartTally(Feeds(pl, w), map[], s, i);
      StartFeeds(pl, s, i, w);
      if w >= s.next {
        NothingFedYet(pl, s, w);
      }
    }
  }

  lemma NothingFedYet(pl: Plan, s: System, w: Wire)
    requires Linear(s) && w >= s.next
    ensures Tally(Feeds(pl, w), s) == 0
  {
    assert LinearAt(s.net, w, InflightCount(s.inflight, w));
    TallyBound(Feeds(pl, w), s, w);
  }

  lemma StartFeeds(pl: Plan, s: System, i: nat, w: Wire)
    requires Linear(s) && Right(pl, s) && i < |s.net.pairs| && Heeds(pl, s, Start(i))
    requires Enabled(map[], s, Start(i))
    ensures var (l, r) := s.net.pairs[i];
            LinksTally(Feeds(pl, w), Interact(l, r, Observed(s.net, l, r), s.next).value)
            <= PairWeight(Feeds(pl, w), (l, r)) + if w >= s.next then 1 else 0
  {
    hide RightLinks, RightTarget, Linear, CommuteOrAnnihilate, After, Step;
    var p, data := RuleOf(pl, s, i);
    var (l, r) := s.net.pairs[i];
    var links := Interact(l, r, Observed(s.net, l, r), s.next).value;
    if Copier(p) && Tuple(data) {
      CommuteFeeds(pl, l, r, s.next, w);
    } else if |links| == 2 {
      TwoLinksTally(Feeds(pl, w), links[0], links[1]);
    } else {
      assert links[1..] == [];
    }
  }

  /* ---- Connecting ---- */

  function Next(s: System, k: nat): Link
    requires Enabled(map[], s, Act(k))
  {
    s.inflight[k][0]
  }

  // The step's connect meets v.
  ghost predicate MeetsAt(s: System, k: nat, v: Wire) {
    Linear(s) && Enabled(map[], s, Act(k)) && Meets(s.inflight[k][0].0, s.inflight[k][0].1) == Some(v)
  }

  lemma LiveStays(s: System, k: nat, v: Wire, w: Wire)
    requires MeetsAt(s, k, v) && w in Live(s.net) && w != v
    ensures var net' := Step(map[], s, Act(k)).net; w in Live(net') && net'.target[w] == s.net.target[w]
  {
  }

  lemma {:induction false} GrownStays(pl: Plan, s: System, k: nat, v: Wire, w: Wire, t: Tree)
    requires MeetsAt(s, k, v) && Grown(pl, s.net, w, t) && (v in s.net.target ==> w != v)
    ensures Grown(pl, Step(map[], s, Act(k)).net, w, t)
    decreases t, 1
  {
    LiveStays(s, k, v, w);
    if v in s.net.target {
      LastReference(s, k, v);
      NotInTargets(s.net, w, v);
    }
    GrownPortStays(pl, s, k, v, s.net.target[w], t);
  }

  lemma {:induction false} GrownPortStays(pl: Plan, s: System, k: nat, v: Wire, p: Port, t: Tree)
    requires MeetsAt(s, k, v) && GrownPort(pl, s.net, p, t) && (v in s.net.target ==> PortCount(p, v) == 0)
    ensures GrownPort(pl, Step(map[], s, Act(k)).net, p, t)
    decreases t, 0
  {
    if p.Comb? {
      GrownStays(pl, s, k, v, p.left, t.left);
      GrownStays(pl, s, k, v, p.right, t.right);
    }
  }

  lemma LinkStays(pl: Plan, s: System, k: nat, v: Wire, link: Link)
    requires MeetsAt(s, k, v) && RightLink(pl, s.net, link) && (v in s.net.target ==> LinkCount(link, v) == 0)
    ensures RightLink(pl, Step(map[], s, Act(k)).net, link)
  {
    var w, p := Meets(link.0, link.1).value, Arriving(link);
    if !After(pl, w, p) {
      var t :| Grown(pl, s.net, w, t);
      GrownStays(pl, s, k, v, w, t);
    }
  }

  lemma FacesStays(pl: Plan, s: System, k: nat, v: Wire, p: Port, data: Port)
    requires MeetsAt(s, k, v) && Faces(pl, s.net, p, data) && (v in s.net.target ==> PortCount(data, v) == 0)
    ensures Faces(pl, Step(map[], s, Act(k)).net, p, data)
  {
    if Copier(p) {
      var t :| GrownPort(pl, s.net, data, t);
      GrownPortStays(pl, s, k, v, data, t);
    }
  }

  // A copy still to be handed out holds the wire of the j-th inner connect.
  lemma CopyHolds(pl: Plan, net: Net, links: seq<Link>, l: Port, r: Port, n: Wire, j: nat)
    requires Commuting(pl, net, links, l, r, n, j)
    ensures links[0] == (AtWire(n + j), AtWire(n + [5, 7, 4, 6][j]))
    ensures LinksCount(links, n + j) >= 2
  {
    hide RightLink;
    var all, v := CommuteOrAnnihilate(l, r, n), n + j;
    var i := if j < 2 then 6 else 7;
    BothHold(l, r, n, j);
    assert links[0] == all[j];
    assert links[1..][i - j - 1] == all[i];
    hide CommuteOrAnnihilate;
    LinkInLinks(links[1..], i - j - 1, v);
  }

  lemma BothHold(l: Port, r: Port, n: Wire, j: nat)
    requires Commutes(l, r) && j < 4
    ensures var all := CommuteOrAnnihilate(l, r, n);
            all[j] == (AtWire(n + j), AtWire(n + [5, 7, 4, 6][j]))
            && LinkCount(all[j], n + j) >= 1 && LinkCount(all[if j < 2 then 6 else 7], n + j) >= 1
  {
  }

  // The j-th inner connect of a commutation finds its wire unset: a copy holds it.
  lemma InnerIsFresh(pl: Plan, s: System, k: nat, l: Port, r: Port, n: Wire, j: nat)
    requires Linear(s) && k < |s.inflight| && Commuting(pl, s.net, s.inflight[k], l, r, n, j)
    ensures Meets(s.inflight[k][0].0, s.inflight[k][0].1) == Some(n + j) && n + j !in s.net.target
    ensures Forwards(pl, n + j, Arriving(s.inflight[k][0]))
  {
    hide CommuteOrAnnihilate;
    var v := n + j;
    CopyHolds(pl, s.net, s.inflight[k], l, r, n, j);
    assert LinearAt(s.net, v, InflightCount(s.inflight, v));
    InflightUpdate(s.inflight, k, [], v);
    InnerBlocks(pl, n);
  }

  lemma InnerBlocks(pl: Plan, n: Wire)
    requires n >= pl.base && (n - pl.base) % FRESH == 0
    ensures forall v: Wire :: n <= v < n + FRESH ==> Block(pl, v) == Block(pl, n)
  {
    forall v: Wire | n <= v < n + FRESH ensures Block(pl, v) == Block(pl, n) {
      assert v - pl.base == FRESH * ((n - pl.base) / FRESH) + (v - n);
    }
  }

  lemma LinkToUnset(pl: Plan, net: Net, link: Link, v: Wire)
    requires RightLink(pl, net, link) && Meets(link.0, link.1) == Some(v) && v !in net.target
    ensures After(pl, v, Arriving(link))
  {
  }

  // The connect is a right one, or sets a fresh wire to forward.
  lemma NextIsRight(pl: Plan, s: System, k: nat) returns (v: Wire)
    requires Good(pl, s) && Enabled(map[], s, Act(k))
    ensures MeetsAt(s, k, v) && v !in s.net.spent
    ensures if v in s.net.target then RightLink(pl, s.net, Next(s, k))
            else RightTarget(pl, v, Arriving(Next(s, k)))
  {
    hide Linear, FedOnce, CommuteOrAnnihilate, Step, Commuting, After, Grown, Forwards;
    var links := s.inflight[k];
    assert RightLinks(pl, s.net, links);
    ActKeepsLinear(map[], s, k);
    if forall j :: 0 <= j < |links| ==> RightLink(pl, s.net, links[j]) {
      assert RightLink(pl, s.net, links[0]);
      v := Meets(links[0].0, links[0].1).value;
      if v !in s.net.target {
        LinkToUnset(pl, s.net, links[0], v);
      }
    } else {
      var l: Port, r: Port, n: Wire, j: nat :| Commuting(pl, s.net, links, l, r, n, j);
      InnerIsFresh(pl, s, k, l, r, n, j);
      v := n + j;
    }
  }

  // Of two ends of a wire, one at most is data.
  lemma MeetingIsRight(pl: Plan, s: System, k: nat, v: Wire)
    requires Good(pl, s) && MeetsAt(s, k, v) && v in s.net.target && v !in s.net.spent
    requires RightLink(pl, s.net, Next(s, k)) && PortCount(s.net.target[v], v) == 0
    ensures RightPair(pl, s.net, (s.net.target[v], Arriving(Next(s, k))))
  {
    var p, q := s.net.target[v], Arriving(Next(s, k));
    assert v in Live(s.net) && RightTarget(pl, v, p);
    if After(pl, v, q) {
      assert Tally(Feeds(pl, v), s) <= 1;
      ActTally(Feeds(pl, v), map[], s, k);
      assert Forwards(pl, v, p) && pl.into(p.wire);
      assert Faces(pl, s.net, p, q);
    } else {
      var t :| Grown(pl, s.net, v, t);
      assert GrownPort(pl, s.net, p, t);
    }
  }

  lemma PairStays(pl: Plan, s: System, k: nat, v: Wire, pair: Pair)
    requires MeetsAt(s, k, v) && RightPair(pl, s.net, pair)
    requires v in s.net.target ==> PortCount(pair.0, v) == 0 && PortCount(pair.1, v) == 0
    ensures RightPair(pl, Step(map[], s, Act(k)).net, pair)
  {
    if Faces(pl, s.net, pair.0, pair.1) {
      FacesStays(pl, s, k, v, pair.0, pair.1);
    } else {
      FacesStays(pl, s, k, v, pair.1, pair.0);
    }
  }

  lemma OtherLinksStay(pl: Plan, s: System, k: nat, v: Wire, k': nat)
    requires MeetsAt(s, k, v) && k' < |s.inflight| && k' != k && RightLinks(pl, s.net, s.inflight[k'])
    ensures RightLinks(pl, Step(map[], s, Act(k)).net, s.inflight[k'])
  {
    hide RightLink, Linear, CommuteOrAnnihilate, Step;
    var links, net' := s.inflight[k'], Step(map[], s, Act(k)).net;
    if forall j :: 0 <= j < |links| ==> RightLink(pl, s.net, links[j]) {
      forall j | 0 <= j < |links| ensures RightLink(pl, net', links[j]) {
        if v in s.net.target {
          NotInOthers(s, k, v, k', j);
        }
        LinkStays(pl, s, k, v, links[j]);
      }
    } else {
      var l: Port, r: Port, n: Wire, j: nat :| Commuting(pl, s.net, links, l, r, n, j);
      Eight(l, r, n);
      forall i | 4 <= i < 8 ensures RightLink(pl, net', CommuteOrAnnihilate(l, r, n)[i]) {
        if v in s.net.target {
          NotInOthers(s, k, v, k', i - j);
        }
        assert links[i - j] == CommuteOrAnnihilate(l, r, n)[i];
        LinkStays(pl, s, k, v, links[i - j]);
      }
      assert Commuting(pl, net', links, l, r, n, j);
    }
  }

  lemma RestStays(pl: Plan, s: System, k: nat, v: Wire)
    requires MeetsAt(s, k, v) && RightLinks(pl, s.net, s.inflight[k])
    ensures RightLinks(pl, Step(map[], s, Act(k)).net, s.inflight[k][1..])
  {
    hide RightLink, Commuting, Linear;
    var links, net' := s.inflight[k], Step(map[], s, Act(k)).net;
    if forall j :: 0 <= j < |links| ==> RightLink(pl, s.net, links[j]) {
      forall j | 0 <= j < |links[1..]| ensures RightLink(pl, net', links[1..][j]) {
        if v in s.net.target {
          NotInOthers(s, k, v, k, j + 1);
        }
        LinkStays(pl, s, k, v, links[j + 1]);
      }
    } else {
      var l: Port, r: Port, n: Wire, j: nat :| Commuting(pl, s.net, links, l, r, n, j);
      InnerRestStays(pl, s, k, v, l, r, n, j);
    }
  }

  lemma InnerRestStays(pl: Plan, s: System, k: nat, v: Wire, l: Port, r: Port, n: Wire, j: nat)
    requires MeetsAt(s, k, v) && Commuting(pl, s.net, s.inflight[k], l, r, n, j)
    ensures RightLinks(pl, Step(map[], s, Act(k)).net, s.inflight[k][1..])
  {
    hide RightLink, Linear, CommuteOrAnnihilate, Step;
    var rest, net' := s.inflight[k][1..], Step(map[], s, Act(k)).net;
    var all := CommuteOrAnnihilate(l, r, n);
    InnerIsFresh(pl, s, k, l, r, n, j);
    assert |all| == 8 by { Eight(l, r, n); }
    forall i | 4 <= i < 8 ensures RightLink(pl, net', all[i]) {
      LinkStays(pl, s, k, v, all[i]);
    }
    assert rest == all[j + 1..];
    if j == 3 {
      forall i | 0 <= i < |rest| ensures RightLink(pl, net', rest[i]) {
        assert rest[i] == all[i + 4];
      }
    } else {
      assert Commuting(pl, net', rest, l, r, n, j + 1);
    }
  }

  lemma ActKeepsRight(pl: Plan, s: System, k: nat)
    requires Good(pl, s) && Enabled(map[], s, Act(k))
    ensures Right(pl, Step(map[], s, Act(k)))
  {
    hide RightTarget, RightPair, RightLinks, RightLink, FedOnce, Linear;
    var v := NextIsRight(pl, s, k);
    var s' := Step(map[], s, Act(k));
    var p := Arriving(Next(s, k));
    assert s'.net == ConnectWireToPort(s.net, v, p);
    forall i | 0 <= i < |s'.net.pairs| ensures RightPair(pl, s'.net, s'.net.pairs[i]) {
      PairsStay(pl, s, k, v, i);
    }
    forall i | 0 <= i < |s'.inflight| ensures RightLinks(pl, s'.net, s'.inflight[i]) {
      if i == k {
        RestStays(pl, s, k, v);
      } else {
        OtherLinksStay(pl, s, k, v, i);
      }
    }
  }

  lemma PairsStay(pl: Plan, s: System, k: nat, v: Wire, i: nat)
    requires Good(pl, s) && MeetsAt(s, k, v) && v !in s.net.spent
    requires v in s.net.target ==> RightLink(pl, s.net, Next(s, k))
    requires i < |ConnectWireToPort(s.net, v, Arriving(Next(s, k))).pairs|
    ensures RightPair(pl, Step(map[], s, Act(k)).net, ConnectWireToPort(s.net, v, Arriving(Next(s, k))).pairs[i])
  {
    var pair := ConnectWireToPort(s.net, v, Arriving(Next(s, k))).pairs[i];
    if v in s.net.target {
      LastReference(s, k, v);
      if i < |s.net.pairs| {
        NotInPairs(s.net, i, v);
      } else {
        NotInTargets(s.net, v, v);
        MeetingIsRight(pl, s, k, v);
      }
    }
    PairStays(pl, s, k, v, pair);
  }

  lemma ActKeepsFedOnce(pl: Plan, s: System, k: nat)
    requires Good(pl, s) && Enabled(map[], s, Act(k))
    ensures FedOnce(pl, Step(map[], s, Act(k)))
  {
    forall w: Wire ensures Tally(Feeds(pl, w), Step(map[], s, Act(k))) <= 1 {
      assert Tally(Feeds(pl, w), s) <= 1;
      ActTally(Feeds(pl, w), map[], s, k);
    }
  }

  lemma StepKeepsGood(pl: Plan, s: System, move: Move)
    requires Good(pl, s) && Enabled(map[], s, move) && Heeds(pl, s, move)
    ensures Good(pl, Step(map[], s, move)) && !move.Expand?
  {
    hide Linear, Right, FedOnce;
    match move
    case Start(i) =>
      StartKeepsLinear(map[], s, i);
      StartKeepsRight(pl, s, i);
      StartKeepsFedOnce(pl, s, i);
    case Act(k) =>
      ActKeepsLinear(map[], s, k);
      ActKeepsRight(pl, s, k);
      ActKeepsFedOnce(pl, s, k);
    case Expand(_, _, _, _, _) =>
  }

  /* ---- It stops ---- */

  // A tuple of the tree pays for its copies and for the copiers sent on to its halves.
  function Work(pl: Plan, p: Port): nat {
    if Copier(p) then 4 else if p.WirePort? then 2 else if Tuple(p) && p.left < pl.base then 23 else 1
  }

  function Works(pl: Plan): Weight {
    Weight((p: Port) => Work(pl, p), (v: Wire, p: Port) => 0)
  }

  ghost function Effort(pl: Plan, s: System): nat {
    Tally(Works(pl), s) + Coming(s.inflight)
  }

  lemma CommuteWorks(pl: Plan, l: Port, r: Port, n: Wire)
    requires Commutes(l, r) && n >= pl.base
    ensures LinksTally(Works(pl), CommuteOrAnnihilate(l, r, n)) == 18
  {
    var k := CommuteOrAnnihilate(l, r, n);
    CommuteTally(Works(pl), l, r, n);
    assert LinkWeight(Works(pl), k[0]) == 2 && LinkWeight(Works(pl), k[1]) == 2;
    assert LinkWeight(Works(pl), k[2]) == 2 && LinkWeight(Works(pl), k[3]) == 2;
    assert LinkWeight(Works(pl), k[4]) + LinkWeight(Works(pl), k[6]) == 5;
    assert LinkWeight(Works(pl), k[5]) + LinkWeight(Works(pl), k[7]) == 5;
  }

  lemma StartTakesEffort(pl: Plan, s: System, i: nat)
    requires Linear(s) && Right(pl, s) && i < |s.net.pairs| && Enabled(map[], s, Start(i))
    ensures Effort(pl, Step(map[], s, Start(i))) < Effort(pl, s)
  {
    hide Tally, RightLinks, RightTarget, Linear, CommuteOrAnnihilate, Coming;
    var p, data := RuleOf(pl, s, i);
    var (l, r) := s.net.pairs[i];
    var links := Interact(l, r, Observed(s.net, l, r), s.next).value;
    StartTally(Works(pl), map[], s, i);
    ComingAdd(s.inflight, links);
    if Copier(p) && Tuple(data) {
      var t :| GrownPort(pl, s.net, data, t);
      assert Grown(pl, s.net, data.left, t.left);
      CommuteWorks(pl, l, r, s.next);
      Eight(l, r, s.next);
    } else if Copier(p) {
      TwoLinksTally(Works(pl), links[0], links[1]);
    } else {
      assert links[1..] == [];
    }
  }

  lemma StepTakesEffort(pl: Plan, s: System, move: Move)
    requires Good(pl, s) && Enabled(map[], s, move) && !move.Expand?
    ensures Effort(pl, Step(map[], s, move)) < Effort(pl, s)
  {
    match move
    case Start(i) => StartTakesEffort(pl, s, i);
    case Act(k) =>
      ActTally(Works(pl), map[], s, k);
      ComingUpdate(s.inflight, k, s.inflight[k][1..]);
  }

  /* ---- Where it stops ---- */

  lemma NothingIsPending(pl: Plan, s: System)
    requires Good(pl, s) && Quiescent(map[], s)
    ensures s.net.pairs == [] && forall k :: 0 <= k < |s.inflight| ==> s.inflight[k] == []
  {
    if s.net.pairs != [] {
      StartKeepsRight(pl, s, 0);
    }
    forall k | 0 <= k < |s.inflight| ensures s.inflight[k] == [] {
      assert !Enabled(map[], s, Act(k));
    }
  }

  /* ---- A duplicator facing a finished tree ---- */

  // Every set wire holds a value, an erasure, or a tuple of set wires of lower rank.
  ghost predicate Finished(net: Net, rank: Wire -> nat) {
    forall w :: w in Live(net) ==> IsData(net.target[w]) && HalvesBelow(net, rank, rank(w), net.target[w])
  }

  ghost predicate HalvesBelow(net: Net, rank: Wire -> nat, n: nat, p: Port) {
    p.Comb? ==> p.left in Live(net) && p.right in Live(net) && rank(p.left) < n && rank(p.right) < n
  }

  // The tree at a port whose tuples stay below rank n.
  ghost function TreeAt(net: Net, rank: Wire -> nat, n: nat, p: Port): Tree
    requires Finished(net, rank) && IsData(p) && HalvesBelow(net, rank, n, p)
    decreases n
  {
    match p
    case ValuePort(v) => Data(v)
    case Comb(_, a, b) =>
      Tupled(TreeAt(net, rank, rank(a), net.target[a]), TreeAt(net, rank, rank(b), net.target[b]))
    case _ => Hole
  }

  // The pair is the duplicator and its source; nothing else is under way, and the
  // outputs lead out of the net.
  ghost predicate Poised(s: System, rank: Wire -> nat, dup: Port, source: Port, n: nat) {
    && Linear(s) && s.inflight == [] && Finished(s.net, rank)
    && Copier(dup) && IsData(source) && HalvesBelow(s.net, rank, n, source)
    && (s.net.pairs == [(dup, source)] || s.net.pairs == [(source, dup)])
    && OneEnd(s, dup.left) && OneEnd(s, dup.right)
  }

  lemma {:induction false} TreeIsGrown(pl: Plan, s: System, n: nat, p: Port)
    requires Linear(s) && pl.base == s.next && Finished(s.net, pl.rank)
    requires IsData(p) && HalvesBelow(s.net, pl.rank, n, p)
    ensures GrownPort(pl, s.net, p, TreeAt(s.net, pl.rank, n, p))
    decreases n
  {
    if p.Comb? {
      TreeIsGrown(pl, s, pl.rank(p.left), s.net.target[p.left]);
      TreeIsGrown(pl, s, pl.rank(p.right), s.net.target[p.right]);
    }
  }

  // The plan of a run: which fresh wires pass data on is the schedule's choice.
  ghost predicate Inward(states: seq<System>, moves: seq<Move>, i: nat, w: Wire) {
    && i < |moves| < |states| && moves[i].Start? && moves[i].pair < |states[i].net.pairs|
    && states[i].next + 4 <= w < states[i].next + 8
    && Copier(states[i].net.pairs[moves[i].pair].0)
  }

  ghost function PlanOf(states: seq<System>, moves: seq<Move>, rank: Wire -> nat): Plan
    requires states != []
  {
    Plan(states[0].next, rank, (w: Wire) => exists i: nat :: Inward(states, moves, i, w))
  }

  lemma {:induction false} BlocksGrow(states: seq<System>, moves: seq<Move>, i: nat, j: nat)
    requires Run(map[], states, moves) && i < j < |states|
    requires forall k :: 0 <= k < |moves| ==> !moves[k].Expand?
    ensures states[j].next >= states[i].next + if moves[i].Start? then FRESH else 0
    decreases j
  {
    assert Enabled(map[], states[j - 1], moves[j - 1]);
    if i < j - 1 {
      BlocksGrow(states, moves, i, j - 1);
    }
  }

  // Without templates there is nothing to expand.
  lemma NoExpansions(states: seq<System>, moves: seq<Move>)
    requires Run(map[], states, moves)
    ensures forall k :: 0 <= k < |moves| ==> !moves[k].Expand?
  {
    forall k | 0 <= k < |moves| ensures !moves[k].Expand? {
      assert Enabled(map[], states[k], moves[k]);
    }
  }

  lemma PlanHeeds(states: seq<System>, moves: seq<Move>, rank: Wire -> nat, i: nat)
    requires Run(map[], states, moves) && i < |moves|
    ensures Heeds(PlanOf(states, moves, rank), states[i], moves[i])
  {
    NoExpansions(states, moves);
    var pl, s, move := PlanOf(states, moves, rank), states[i], moves[i];
    if move.Start? && move.pair < |s.net.pairs| {
      forall v: Wire | s.next + 4 <= v < s.next + 8 ensures pl.into(v) <==> Copier(s.net.pairs[move.pair].0) {
        if j: nat :| Inward(states, moves, j, v) {
          if j < i {
            BlocksGrow(states, moves, j, i);
          } else if i < j {
            BlocksGrow(states, moves, i, j);
          }
        }
        if Copier(s.net.pairs[move.pair].0) {
          assert Inward(states, moves, i, v);
        }
      }
    }
  }

  lemma PoisedIsGood(pl: Plan, s: System, dup: Port, source: Port, n: nat)
    requires Poised(s, pl.rank, dup, source, n) && pl.base == s.next
    ensures Good(pl, s)
  {
    TreeIsGrown(pl, s, n, source);
    forall w | w in Live(s.net) ensures RightTarget(pl, w, s.net.target[w]) {
      TargetsAreBelow(s, w);
      if s.net.target[w].Comb? {
        TargetsAreBelow(s, s.net.target[w].left);
        TargetsAreBelow(s, s.net.target[w].right);
      }
    }
    assert Faces(pl, s.net, dup, source);
    forall w: Wire ensures Tally(Feeds(pl, w), s) <= 1 {
      PoisedFeeds(pl, s, dup, source, n, w);
    }
  }

  lemma PoisedFeeds(pl: Plan, s: System, dup: Port, source: Port, n: nat, w: Wire)
    requires Poised(s, pl.rank, dup, source, n)
    ensures Tally(Feeds(pl, w), s) <= 1
  {
    SourceFeeds(pl, w, Live(s.net));
    PairsCountRemove(s.net.pairs, 0, w);
    PairsTallyRemove(Feeds(pl, w), s.net.pairs, 0);
    assert Without(s.net.pairs, 0) == [];
  }

  lemma {:induction false} SourceFeeds(pl: Plan, w: Wire, m: map<Wire, Port>)
    requires forall v :: v in m ==> IsData(m[v])
    ensures MapTally(Feeds(pl, w), m) == if w in m then 1 else 0
    decreases |m|
  {
    if m != map[] {
      var v :| v in m;
      MapTallyRemove(Feeds(pl, w), m, v);
      SourceFeeds(pl, w, m - {v});
    }
  }

  /* ---- Runs ---- */

  lemma {:induction false} RunIsGood(states: seq<System>, moves: seq<Move>, rank: Wire -> nat,
                                     dup: Port, source: Port, n: nat, i: nat)
    requires Run(map[], states, moves) && Poised(states[0], rank, dup, source, n) && i < |states|
    ensures Good(PlanOf(states, moves, rank), states[i])
    decreases i
  {
    if i == 0 {
      PoisedIsGood(PlanOf(states, moves, rank), states[0], dup, source, n);
    } else {
      RunIsGood(states, moves, rank, dup, source, n, i - 1);
      assert Enabled(map[], states[i - 1], moves[i - 1]);
      PlanHeeds(states, moves, rank, i - 1);
      StepKeepsGood(PlanOf(states, moves, rank), states[i - 1], moves[i - 1]);
    }
  }

  lemma {:induction false} EffortRunsOut(states: seq<System>, moves: seq<Move>, rank: Wire -> nat,
                                         dup: Port, source: Port, n: nat, i: nat)
    requires Run(map[], states, moves) && Poised(states[0], rank, dup, source, n) && i < |states|
    ensures var pl := PlanOf(states, moves, rank); i + Effort(pl, states[i]) <= Effort(pl, states[0])
    decreases i
  {
    hide Right, FedOnce, Linear, Step, Effort, Poised;
    if i > 0 {
      EffortRunsOut(states, moves, rank, dup, source, n, i - 1);
      RunIsGood(states, moves, rank, dup, source, n, i - 1);
      NoExpansions(states, moves);
      assert Enabled(map[], states[i - 1], moves[i - 1]);
      StepTakesEffort(PlanOf(states, moves, rank), states[i - 1], moves[i - 1]);
    }
  }

  lemma OneWorks(pl: Plan, w: Wire, p: Port)
    requires IsData(p)
    ensures EndWeight(Works(pl), w, p) <= 23
  {
  }

  lemma OneLess(m: map<Wire, Port>, v: Wire)
    requires v in m
    ensures |m| == |m - {v}| + 1
  {
    assert m.Keys == (m - {v}).Keys + {v};
  }

  lemma {:induction false} SourceWorks(pl: Plan, m: map<Wire, Port>)
    requires forall v :: v in m ==> IsData(m[v])
    ensures MapTally(Works(pl), m) <= 23 * |m|
    decreases |m|
  {
    if m != map[] {
      var v :| v in m;
      OneWorks(pl, v, m[v]);
      SourceWorks(pl, m - {v});
      OneLess(m, v);
      hide Works, EndWeight;
      MapTallyRemove(Works(pl), m, v);
    }
  }

  /** Every schedule of a duplicator and a finished tree of n wires stops within
      23n + 27 steps, and only ever copies. */
  lemma CopyStops(states: seq<System>, moves: seq<Move>, rank: Wire -> nat, dup: Port, source: Port, n: nat)
    requires Run(map[], states, moves) && Poised(states[0], rank, dup, source, n)
    ensures |moves| <= 23 * |Live(states[0].net)| + 27
    ensures Copying(states, moves)
  {
    hide Right, FedOnce, Linear, Step;
    var pl, s := PlanOf(states, moves, rank), states[0];
    EffortRunsOut(states, moves, rank, dup, source, n, |moves|);
    SourceWorks(pl, Live(s.net));
    PairsTallyRemove(Works(pl), s.net.pairs, 0);
    assert Without(s.net.pairs, 0) == [];
    NoExpansions(states, moves);
    forall i | 0 <= i < |moves| && moves[i].Start? && moves[i].pair < |states[i].net.pairs|
      ensures CopyRule(states[i].net.pairs[moves[i].pair].0, states[i].net.pairs[moves[i].pair].1)
    {
      RunIsGood(states, moves, rank, dup, source, n, i);
      var p, data := RuleOf(pl, states[i], moves[i].pair);
    }
  }
}
