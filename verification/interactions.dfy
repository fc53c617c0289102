/** The interaction rules of src/natsune/first_order/interactions.py, each as the
    connects it issues, in order. */
module Interactions {
  import opened Options
  import opened Nets

  type Link = (Target, Target)

  // A rule allocates its fresh wires from `next` up, at most this many.
  const FRESH := 8

  function Erase(ws: seq<Wire>): seq<Link> {
    if ws == [] then [] else [(AtPort(Erasure(false)), AtWire(ws[0]))] + Erase(ws[1..])
  }

  // `seen` is what the unlocked read of the operand wire found.
  function ExtMerge(l: Port, v: Value, seen: Option<Port>, next: Wire): seq<Link>
    requires l.Merge?
  {
    if seen.Some? && seen.value.ValuePort? then
      var u := seen.value.value;
      var result := if l.swapped then l.merge(u, v) else l.merge(v, u);
      [(AtWire(l.operand), AtPort(Erasure(false))),
       (AtWire(l.result), AtPort(if result.Some? then ValuePort(result.value) else Erasure(true)))]
    else
      [(AtWire(next), AtPort(ValuePort(v))),
       (AtWire(l.operand), AtPort(Merge(l.merge, next, l.result, !l.swapped)))]
  }

  function ExtSplit(l: Port, v: Value): seq<Link>
    requires l.Split?
  {
    match l.split(v)
    case None => Erase(Wires(l))
    case Some(parts) =>
      [(AtWire(l.first), AtPort(ValuePort(parts.0))), (AtWire(l.second), AtPort(ValuePort(parts.1)))]
  }

  function CommuteOrAnnihilate(l: Port, r: Port, next: Wire): seq<Link>
    requires l.Comb? && r.Comb?
  {
    if l.tag == r.tag then
      [(AtWire(l.left), AtWire(r.left)), (AtWire(l.right), AtWire(r.right))]
    else
      var l1, l2 := Comb(l.tag, next, next + 1), Comb(l.tag, next + 2, next + 3);
      var r1, r2 := Comb(r.tag, next + 4, next + 5), Comb(r.tag, next + 6, next + 7);
      [(AtWire(l1.left), AtWire(r1.right)), (AtWire(l1.right), AtWire(r2.right)),
       (AtWire(l2.left), AtWire(r1.left)), (AtWire(l2.right), AtWire(r2.left)),
       (AtWire(l.left), AtPort(r1)), (AtWire(l.right), AtPort(r2)),
       (AtWire(r.left), AtPort(l1)), (AtWire(r.right), AtPort(l2))]
  }

  function Clone(l: Port, v: Value): seq<Link>
    requires l.Comb?
  {
    [(AtWire(l.left), AtPort(ValuePort(v))), (AtWire(l.right), AtPort(ValuePort(v)))]
  }

  /* execute_interaction, without expansions. None is a raised error, or a Graft
     facing anything but a wire port. */
  function Interact(l: Port, r: Port, seen: Option<Port>, next: Wire): Option<seq<Link>> {
    if l.WirePort? then Some([(AtWire(l.wire), AtPort(r))])
    else if r.WirePort? then Some([(AtWire(r.wire), AtPort(l))])
    else if l.Graft? || r.Graft? then None
    else if l.Erasure? || r.Erasure? then Some(Erase(Wires(l)) + Erase(Wires(r)))
    else if (l.Split? || l.Merge?) && (r.Split? || r.Merge?) then None
    else if l.Comb? && r.Comb? then Some(CommuteOrAnnihilate(l, r, next))
    else
      var (agent, data) := if l.ValuePort? then (r, l) else (l, r);
      if !data.ValuePort? then None
      else match agent
        case Split(_, _, _) => Some(ExtSplit(agent, data.value))
        case Merge(_, _, _, _) => Some(ExtMerge(agent, data.value, seen, next))
        case Comb(_, _, _) => Some(Clone(agent, data.value))
        case _ => None
  }

  predicate IsAgent(p: Port) {
    p.Split? || p.Merge?
  }

  /** Which pairs raise or wait for an expansion: a graft facing anything but a wire
      port, two agents, an agent facing a combinator, and two values. */
  lemma NoRuleExactly(l: Port, r: Port, seen: Option<Port>, next: Wire)
    ensures Interact(l, r, seen, next).None? <==>
            && !l.WirePort? && !r.WirePort?
            && (|| l.Graft? || r.Graft?
                || (IsAgent(l) && (IsAgent(r) || r.Comb?)) || (l.Comb? && IsAgent(r))
                || (l.ValuePort? && r.ValuePort?))
  {
  }

  /* ---- Errors ---- */

  // Some connect brings an erasure with an error.
  predicate BringsError(links: seq<Link>) {
    exists i :: 0 <= i < |links| && (links[i].0 == AtPort(Erasure(true)) || links[i].1 == AtPort(Erasure(true)))
  }

  // A merge has both its operands and raises.
  predicate MergeRaises(p: Port, data: Port, seen: Option<Port>) {
    p.Merge? && data.ValuePort? && seen.Some? && seen.value.ValuePort?
    && (if p.swapped then p.merge(seen.value.value, data.value) else p.merge(data.value, seen.value.value)).None?
  }

  lemma {:induction false} EraseIsPlain(ws: seq<Wire>)
    ensures |Erase(ws)| == |ws|
    ensures forall i :: 0 <= i < |ws| ==> Erase(ws)[i] == (AtPort(Erasure(false)), AtWire(ws[i]))
  {
    if ws != [] {
      EraseIsPlain(ws[1..]);
    }
  }

  /** An error comes from a merge that raises, or moves along a wire port. The rules
      for erasures and splits pass none on, not even that of a split that raises. */
  lemma ErrorsExactly(l: Port, r: Port, seen: Option<Port>, next: Wire)
    requires Interact(l, r, seen, next).Some?
    ensures BringsError(Interact(l, r, seen, next).value) <==>
            if l.WirePort? then r == Erasure(true)
            else if r.WirePort? then l == Erasure(true)
            else MergeRaises(l, r, seen) || MergeRaises(r, l, seen)
  {
    var links := Interact(l, r, seen, next).value;
    EraseIsPlain(Wires(l));
    EraseIsPlain(Wires(r));
    if l.WirePort? || r.WirePort? {
      assert links[0].1 == if l.WirePort? then AtPort(r) else AtPort(l);
    } else if MergeRaises(l, r, seen) || MergeRaises(r, l, seen) {
      assert links[1].1 == AtPort(Erasure(true));
    }
  }

  /* ---- Conservation ---- */

  function LinkCount(link: Link, w: Wire): nat {
    TargetCount(link.0, w) + TargetCount(link.1, w)
  }

  function LinksCount(links: seq<Link>, w: Wire): nat {
    if links == [] then 0 else LinkCount(links[0], w) + LinksCount(links[1..], w)
  }

  lemma {:induction false} LinksCountAppend(a: seq<Link>, b: seq<Link>, w: Wire)
    ensures LinksCount(a + b, w) == LinksCount(a, w) + LinksCount(b, w)
  {
    if a == [] {
      assert a + b == b;
    } else {
      assert (a + b)[1..] == a[1..] + b;
      LinksCountAppend(a[1..], b, w);
    }
  }

  lemma {:induction false} EraseCount(ws: seq<Wire>, w: Wire)
    ensures LinksCount(Erase(ws), w) == Occurrences(ws, w)
  {
    if ws != [] {
      EraseCount(ws[1..], w);
      assert Erase(ws)[1..] == Erase(ws[1..]);
    }
  }

  lemma TwoLinks(a: Link, b: Link, w: Wire)
    ensures LinksCount([a, b], w) == LinkCount(a, w) + LinkCount(b, w)
  {
    assert [a, b][1..] == [b] && [b][1..] == [];
    assert LinksCount([b], w) == LinkCount(b, w);
  }

  lemma CommuteCount(l: Port, r: Port, next: Wire, w: Wire)
    requires l.Comb? && r.Comb? && l.tag != r.tag
    ensures LinksCount(CommuteOrAnnihilate(l, r, next), w)
         == PortCount(l, w) + PortCount(r, w) + if next <= w < next + FRESH then 2 else 0
  {
    var links := CommuteOrAnnihilate(l, r, next);
    LinksCountAppend([links[0], links[1]], [links[2], links[3]], w);
    LinksCountAppend([links[4], links[5]], [links[6], links[7]], w);
    var front := [links[0], links[1]] + [links[2], links[3]];
    var back := [links[4], links[5]] + [links[6], links[7]];
    assert links == front + back;
    LinksCountAppend(front, back, w);
    TwoLinks(links[0], links[1], w);
    TwoLinks(links[2], links[3], w);
    TwoLinks(links[4], links[5], w);
    TwoLinks(links[6], links[7], w);
  }

  /** Every rule hands on exactly the references of the two ports it consumes, and
      every fresh wire gets its two ends. */
  lemma RulesConserve(l: Port, r: Port, seen: Option<Port>, next: Wire, w: Wire)
    requires Interact(l, r, seen, next).Some?
    ensures var count := LinksCount(Interact(l, r, seen, next).value, w);
            count == PortCount(l, w) + PortCount(r, w)
            || (next <= w < next + FRESH && count == PortCount(l, w) + PortCount(r, w) + 2)
  {
    var links := Interact(l, r, seen, next).value;
    if l.WirePort? || r.WirePort? {
      assert links[1..] == [];
    } else if l.Erasure? || r.Erasure? {
      LinksCountAppend(Erase(Wires(l)), Erase(Wires(r)), w);
      EraseCount(Wires(l), w);
      EraseCount(Wires(r), w);
      OccurrencesOfPort(l, w);
      OccurrencesOfPort(r, w);
    } else if l.Comb? && r.Comb? && l.tag != r.tag {
      CommuteCount(l, r, next, w);
    } else {
      var (agent, data) := if l.ValuePort? then (r, l) else (l, r);
      if agent.Split? && agent.split(data.value).None? {
        EraseCount(Wires(agent), w);
        OccurrencesOfPort(agent, w);
      } else {
        assert links == [links[0], links[1]];
        TwoLinks(links[0], links[1], w);
      }
    }
  }
}
