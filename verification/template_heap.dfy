/** materialize_template on the heap it works on: ports are objects whose wire
    lists are rewritten in place, wires are objects too, and a template is whatever
    hangs on its interfaces. That the template survives is what templates.dfy, whose
    ports are values, cannot say. */
module TemplateHeap {

  // What a port is, apart from its wires.
  class PortObject<Kind(==)> {
    const kind: Kind
    var wires: seq<WireObject<Kind>>

    // Port.__copy__: the wire list is copied, the wires in it are not.
    constructor Copy(p: PortObject<Kind>)
      ensures kind == p.kind && wires == p.wires
    {
      kind, wires := p.kind, p.wires;
    }
  }

  class WireObject<Kind(==)> {
    var target: PortObject?<Kind>

    constructor Targeting(p: PortObject?<Kind>)
      ensures target == p
    {
      target := p;
    }
  }

  type Pairs<Kind(==)> = seq<(PortObject<Kind>, PortObject<Kind>)>

  // A template, and a finite set of wires that holds all that hangs on it.
  datatype Source<Kind(==)> = Source(
    input: WireObject<Kind>, output: WireObject<Kind>, pairs: Pairs<Kind>, all: set<WireObject<Kind>>)
  {
    ghost function Targets(): set<PortObject<Kind>>
      reads all
    {
      set w | w in all && w.target != null :: w.target
    }

    ghost function Ends(): set<PortObject<Kind>> {
      (set i | 0 <= i < |pairs| :: pairs[i].0) + (set i | 0 <= i < |pairs| :: pairs[i].1)
    }

    ghost function Ports(): set<PortObject<Kind>>
      reads all
    {
      Targets() + Ends()
    }

    ghost predicate Closed()
      reads all, Targets(), Ends()
    {
      && input in all && output in all
      && forall p, i :: p in Ports() && 0 <= i < |p.wires| ==> p.wires[i] in all
    }

    /* Linearity: a port is in one place, and a set wire is referred to once, the
       interfaces counting as references. */
    ghost predicate Linear()
      requires Closed()
      reads all, Targets(), Ends()
    {
      Placed() && ReferredOnce()
    }

    ghost predicate Placed()
      reads all
    {
      && input != output
      && (forall v, w :: v in all && w in all && v.target != null && v.target == w.target ==> v == w)
      && (forall i, j :: 0 <= i < |pairs| && 0 <= j < |pairs| ==>
            pairs[i].0 != pairs[j].1 && (pairs[i].0 == pairs[j].0 || pairs[i].1 == pairs[j].1 ==> i == j))
      && Targets() !! Ends()
    }

    ghost predicate ReferredOnce()
      requires Closed()
      reads all, Targets(), Ends()
    {
      forall p, i :: p in Ports() && 0 <= i < |p.wires| && p.wires[i].target != null ==>
        && p.wires[i] != input && p.wires[i] != output
        && forall q, j :: q in Ports() && 0 <= j < |q.wires| && p.wires[i] == q.wires[j] ==> p == q && i == j
    }
  }

  type Identity<Kind(==)> = map<WireObject<Kind>, WireObject<Kind>>
  type Origin<Kind(==)> = map<PortObject<Kind>, PortObject<Kind>>

  // c is p on the copied wires.
  ghost predicate Rewired<Kind>(p: PortObject<Kind>, c: PortObject<Kind>, id: Identity<Kind>)
    reads p, c
  {
    && c.kind == p.kind && |c.wires| == |p.wires|
    && forall i :: 0 <= i < |p.wires| ==> p.wires[i] in id && c.wires[i] == id[p.wires[i]]
  }

  // A wire's copy is set like it, to its target's copy.
  ghost predicate CopiedWire<Kind>(w: WireObject<Kind>, id: Identity<Kind>)
    requires w in id
    reads w, id[w], w.target, id[w].target
  {
    if w.target == null then id[w].target == null
    else id[w].target != null && Rewired(w.target, id[w].target, id)
  }

  // Wire.__copy__, which copies the target along.
  method CopyWire<Kind(==)>(w: WireObject<Kind>) returns (c: WireObject<Kind>)
    ensures fresh(c) && (c.target == null <==> w.target == null)
    ensures w.target != null ==> fresh(c.target) && c.target.kind == w.target.kind && c.target.wires == w.target.wires
  {
    if w.target == null {
      c := new WireObject.Targeting(null);
    } else {
      var p := new PortObject.Copy(w.target);
      c := new WireObject.Targeting(p);
    }
  }

  /* ---- Where the copier is ---- */

  // The first `done` wires are copies, the others still the originals.
  ghost predicate Renaming<Kind>(ws: seq<WireObject<Kind>>, cs: seq<WireObject<Kind>>, id: Identity<Kind>, done: nat) {
    && |cs| == |ws| && done <= |ws|
    && (forall i :: 0 <= i < done ==> ws[i] in id && cs[i] == id[ws[i]])
    && (forall i :: done <= i < |ws| ==> cs[i] == ws[i])
  }

  // How far a copied port is.
  ghost predicate Partly<Kind>(p: PortObject<Kind>, c: PortObject<Kind>, id: Identity<Kind>, done: nat)
    reads p, c
  {
    c.kind == p.kind && Renaming(p.wires, c.wires, id, done)
  }

  /* The ports in the queue have all their old wires, `head` has `done` new ones,
     the others only new ones. */
  ghost predicate Copying<Kind>(t: Source<Kind>, id: Identity<Kind>, origin: Origin<Kind>,
                                q: seq<PortObject<Kind>>, head: PortObject?<Kind>, done: nat)
    reads t.all, t.Targets(), t.Ends(), origin.Keys, origin.Values
  {
    && id.Keys <= t.all && origin.Values <= t.Ports() && origin.Keys !! t.Ports()
    && (head != null ==> head in origin && head !in q)
    && (forall i :: 0 <= i < |q| ==> q[i] in origin)
    && (forall i, j :: 0 <= i < j < |q| ==> q[i] != q[j])
    && (forall c :: c in origin ==>
          Partly(origin[c], c, id, if c in q then 0 else if c == head then done else |origin[c].wires|))
  }

  // Every copied wire's target is a copied port, and each port has one copy.
  ghost predicate Matched<Kind>(t: Source<Kind>, id: Identity<Kind>, origin: Origin<Kind>)
    reads id.Keys, id.Values
  {
    && (forall v, w :: v in id && w in id && id[v] == id[w] ==> v == w)
    && (forall c, d :: c in origin && d in origin && origin[c] == origin[d] ==> c == d)
    && (forall w :: w in id ==>
          if w.target == null then id[w].target == null
          else id[w].target != null && id[w].target in origin && origin[id[w].target] == w.target)
    && (forall c :: c in origin ==> origin[c] in t.Ends() || exists w :: w in id && w.target == origin[c])
  }

  // A set wire is an interface, or its reference has been rewired.
  ghost predicate Met<Kind>(t: Source<Kind>, w: WireObject<Kind>, origin: Origin<Kind>,
                            q: seq<PortObject<Kind>>, head: PortObject?<Kind>, done: nat)
    reads origin.Values
  {
    w == t.input || w == t.output
    || exists c, i :: c in origin && c !in q && (c == head ==> i < done) && 0 <= i < |origin[c].wires|
                      && origin[c].wires[i] == w
  }

  ghost predicate AllMet<Kind>(t: Source<Kind>, id: Identity<Kind>, origin: Origin<Kind>,
                               q: seq<PortObject<Kind>>, head: PortObject?<Kind>, done: nat)
    reads id.Keys, origin.Values
  {
    forall w :: w in id && w.target != null ==> Met(t, w, origin, q, head, done)
  }

  // What a step adds is new, and what was there stays.
  ghost predicate Grows<Kind>(id: Identity<Kind>, id': Identity<Kind>, origin: Origin<Kind>, origin': Origin<Kind>) {
    && (forall w :: w in id ==> w in id' && id'[w] == id[w])
    && (forall c :: c in origin ==> c in origin' && origin'[c] == origin[c])
  }

  /* ---- One wire ---- */

  // A new copy of p waits in the queue.
  lemma Enqueue<Kind>(t: Source<Kind>, id: Identity<Kind>, origin: Origin<Kind>, q: seq<PortObject<Kind>>,
                      head: PortObject?<Kind>, done: nat, p: PortObject<Kind>, c: PortObject<Kind>)
    requires Copying(t, id, origin, q, head, done)
    requires p in t.Ports() && c !in t.Ports() && c !in origin && c.kind == p.kind && c.wires == p.wires
    ensures Copying(t, id, origin[c := p], q + [c], head, done)
  {
    var origin', q' := origin[c := p], q + [c];
    forall d | d in origin'
      ensures Partly(origin'[d], d, id, if d in q' then 0 else if d == head then done else |origin'[d].wires|)
    {
      assert d in q' <==> d in q || d == c;
    }
  }

  lemma Identify<Kind>(t: Source<Kind>, id: Identity<Kind>, origin: Origin<Kind>, q: seq<PortObject<Kind>>,
                       head: PortObject?<Kind>, done: nat, w: WireObject<Kind>, c: WireObject<Kind>)
    requires Copying(t, id, origin, q, head, done) && w in t.all && w !in id
    ensures Copying(t, id[w := c], origin, q, head, done)
  {
    var id' := id[w := c];
    forall d | d in origin
      ensures Partly(origin[d], d, id', if d in q then 0 else if d == head then done else |origin[d].wires|)
    {
      assert Partly(origin[d], d, id, if d in q then 0 else if d == head then done else |origin[d].wires|);
    }
  }

  // The target of a wire that was not met has no copy yet.
  lemma TargetIsNew<Kind>(t: Source<Kind>, id: Identity<Kind>, origin: Origin<Kind>, w: WireObject<Kind>)
    requires t.Closed() && t.Linear() && Matched(t, id, origin) && id.Keys <= t.all
    requires w in t.all && w !in id && w.target != null
    ensures w.target !in origin.Values
  {
    assert w.target in t.Targets();
  }

  // The wire has its copy, and its target too.
  lemma Match<Kind>(t: Source<Kind>, id: Identity<Kind>, origin: Origin<Kind>, w: WireObject<Kind>, c: WireObject<Kind>)
    requires Matched(t, id, origin) && w !in id && c !in id.Values && (c.target == null <==> w.target == null)
    requires w.target != null ==> c.target !in origin && w.target !in origin.Values
    ensures Matched(t, id[w := c], if w.target == null then origin else origin[c.target := w.target])
  {
    var id' := id[w := c];
    var origin' := if w.target == null then origin else origin[c.target := w.target];
    forall d | d in origin' ensures origin'[d] in t.Ends() || exists v :: v in id' && v.target == origin'[d] {
      if d in origin && origin[d] !in t.Ends() {
        var v :| v in id && v.target == origin[d];
        assert v in id';
      } else if d !in origin {
        assert w in id' && w.target == origin'[d];
      }
    }
  }

  // Copies one more wire, and has its copied target wait.
  method VisitWire<Kind(==)>(ghost t: Source<Kind>, id: Identity<Kind>, ghost origin: Origin<Kind>,
                             q: seq<PortObject<Kind>>, ghost head: PortObject?<Kind>, ghost done: nat,
                             wire: WireObject<Kind>)
    returns (id': Identity<Kind>, ghost origin': Origin<Kind>, q': seq<PortObject<Kind>>)
    requires t.Closed() && t.Linear() && Copying(t, id, origin, q, head, done) && Matched(t, id, origin)
    requires wire in t.all && wire !in id
    ensures t.Closed() && t.Linear() && Copying(t, id', origin', q', head, done) && Matched(t, id', origin')
    ensures Grows(id, id', origin, origin')
    ensures wire in id' && fresh(id'[wire]) && id' == id[wire := id'[wire]]
    ensures id'[wire].target != null ==> fresh(id'[wire].target)
    ensures forall c :: c in origin' ==> c in origin || (fresh(c) && c in q' && origin'[c] == wire.target)
    ensures q <= q' && forall c :: c in q' ==> c in q || fresh(c)
  {
    hide Partly, Source.Linear, Source.Closed, Matched;
    var copy := CopyWire(wire);
    id', origin', q' := id[wire := copy], origin, q;
    if copy.target != null {
      TargetIsNew(t, id, origin, wire);
      q' := q + [copy.target];
      origin' := origin[copy.target := wire.target];
      Enqueue(t, id, origin, q, head, done, wire.target, copy.target);
    }
    Identify(t, id, origin', q', head, done, wire, copy);
    Match(t, id, origin, wire, copy);
  }

  lemma RenameNext<Kind>(ws: seq<WireObject<Kind>>, cs: seq<WireObject<Kind>>, id: Identity<Kind>, i: nat)
    requires Renaming(ws, cs, id, i) && i < |cs| && cs[i] in id
    ensures Renaming(ws, cs[i := id[cs[i]]], id, i + 1)
  {
  }

  // Puts the copied wire in its place.
  method StoreWire<Kind(==)>(ghost t: Source<Kind>, id: Identity<Kind>, ghost origin: Origin<Kind>,
                             ghost q: seq<PortObject<Kind>>, head: PortObject<Kind>, i: nat)
    requires t.Closed() && t.Linear() && Copying(t, id, origin, q, head, i) && Matched(t, id, origin)
    requires i < |head.wires| && head.wires[i] in id
    modifies head
    ensures t.Closed() && t.Linear() && Copying(t, id, origin, q, head, i + 1) && Matched(t, id, origin)
    ensures |head.wires| == old(|head.wires|)
  {
    hide Renaming, Matched;
    assert Partly(origin[head], head, id, i);
    RenameNext(origin[head].wires, head.wires, id, i);
    head.wires := head.wires[i := id[head.wires[i]]];
  }

  lemma OneReference<Kind>(t: Source<Kind>, p: PortObject<Kind>, q: PortObject<Kind>, i: nat, j: nat)
    requires t.Closed() && t.Linear() && p in t.Ports() && q in t.Ports() && i < |p.wires| && j < |q.wires|
    requires p.wires[i] == q.wires[j] && p.wires[i].target != null
    ensures p == q && i == j && p.wires[i] != t.input && p.wires[i] != t.output
  {
  }

  // A wire that is met again is not set: its one reference has been rewired.
  lemma MetAgain<Kind>(t: Source<Kind>, id: Identity<Kind>, origin: Origin<Kind>, q: seq<PortObject<Kind>>,
                       head: PortObject<Kind>, i: nat)
    requires t.Closed() && t.Linear() && Copying(t, id, origin, q, head, i) && Matched(t, id, origin)
    requires AllMet(t, id, origin, q, head, i) && i < |origin[head].wires| && origin[head].wires[i] in id
    ensures id[origin[head].wires[i]].target == null
  {
    var p := origin[head];
    var w := p.wires[i];
    if w.target != null {
      assert Met(t, w, origin, q, head, i);
      OneReference(t, p, p, i, i);
      var c, j: nat :|
        c in origin && c !in q && (c == head ==> j < i) && j < |origin[c].wires| && origin[c].wires[j] == w;
      OneReference(t, origin[c], p, j, i);
      assert false;
    }
  }

  lemma MetMore<Kind>(t: Source<Kind>, id: Identity<Kind>, id': Identity<Kind>, origin: Origin<Kind>,
                      origin': Origin<Kind>, q: seq<PortObject<Kind>>, q': seq<PortObject<Kind>>,
                      head: PortObject<Kind>, i: nat, w: WireObject<Kind>)
    requires AllMet(t, id, origin, q, head, i) && Grows(id, id', origin, origin')
    requires head in origin && head !in q' && i < |origin[head].wires| && origin[head].wires[i] == w
    requires (forall v :: v in id' ==> v in id || v == w) && (forall c :: c in q' && c in origin ==> c in q)
    ensures AllMet(t, id', origin', q', head, i + 1)
  {
    forall v | v in id' && v.target != null ensures Met(t, v, origin', q', head, i + 1) {
      if v in id {
        assert Met(t, v, origin, q, head, i);
        if v != t.input && v != t.output {
          var c, j: nat :|
            c in origin && c !in q && (c == head ==> j < i) && j < |origin[c].wires| && origin[c].wires[j] == v;
          assert c in origin' && c !in q' && origin'[c].wires[j] == v;
        }
      } else {
        assert head in origin' && origin'[head].wires[i] == v;
      }
    }
  }

  lemma HeadWire<Kind>(t: Source<Kind>, id: Identity<Kind>, origin: Origin<Kind>, q: seq<PortObject<Kind>>,
                       head: PortObject<Kind>, i: nat)
    requires t.Closed() && Copying(t, id, origin, q, head, i) && i < |head.wires|
    ensures |origin[head].wires| == |head.wires| && origin[head].wires[i] == head.wires[i] && head.wires[i] in t.all
  {
    assert origin[head] in t.Ports() && Partly(origin[head], head, id, i);
  }

  // One wire of the port.
  method RewireOne<Kind(==)>(ghost t: Source<Kind>, id: Identity<Kind>, ghost origin: Origin<Kind>,
                             q: seq<PortObject<Kind>>, head: PortObject<Kind>, i: nat)
    returns (id': Identity<Kind>, ghost origin': Origin<Kind>, q': seq<PortObject<Kind>>)
    requires t.Closed() && t.Linear() && Copying(t, id, origin, q, head, i) && Matched(t, id, origin)
    requires AllMet(t, id, origin, q, head, i) && i < |head.wires|
    modifies head
    ensures t.Closed() && t.Linear() && Copying(t, id', origin', q', head, i + 1) && Matched(t, id', origin')
    ensures AllMet(t, id', origin', q', head, i + 1) && Grows(id, id', origin, origin')
    ensures |head.wires| == old(|head.wires|)
    ensures forall w :: w in id' ==> w in id || fresh(id'[w])
    ensures forall c :: c in origin' ==> c in origin || fresh(c)
    ensures id.Keys <= id'.Keys && (id'.Keys == id.Keys ==> q' == q)
  {
    hide Source.Linear, Source.Placed, Source.ReferredOnce, Source.Closed, Matched, AllMet, Partly;
    id', origin', q' := id, origin, q;
    var wire := head.wires[i];
    HeadWire(t, id, origin, q, head, i);
    if wire in id {
      MetAgain(t, id, origin, q, head, i);
      assert id[wire].target == null;
    } else {
      id', origin', q' := VisitWire(t, id, origin, q, head, i, wire);
      assert wire in id'.Keys && wire !in id.Keys;
    }
    StoreWire(t, id', origin', q', head, i);
    MetMore(t, id, id', origin, origin', q, q', head, i, wire);
  }

  /** The loop over one port's wires, in place. */
  method RewirePort<Kind(==)>(ghost t: Source<Kind>, id: Identity<Kind>, ghost origin: Origin<Kind>,
                              q: seq<PortObject<Kind>>, head: PortObject<Kind>)
    returns (id': Identity<Kind>, ghost origin': Origin<Kind>, q': seq<PortObject<Kind>>)
    requires t.Closed() && t.Linear() && Copying(t, id, origin, q, head, 0) && Matched(t, id, origin)
    requires AllMet(t, id, origin, q, head, 0)
    modifies head
    ensures t.Closed() && t.Linear() && Copying(t, id', origin', q', null, 0) && Matched(t, id', origin')
    ensures AllMet(t, id', origin', q', null, 0) && Grows(id, id', origin, origin')
    ensures forall w :: w in id' ==> w in id || fresh(id'[w])
    ensures forall c :: c in origin' ==> c in origin || fresh(c)
    ensures id.Keys <= id'.Keys && (id'.Keys == id.Keys ==> q' == q)
  {
    hide Source.Linear, Source.Placed, Source.ReferredOnce, Source.Closed, Copying, Matched, AllMet;
    id', origin', q' := id, origin, q;
    var i := 0;
    while i < |head.wires|
      invariant 0 <= i <= |head.wires|
      invariant t.Closed() && t.Linear() && Copying(t, id', origin', q', head, i) && Matched(t, id', origin')
      invariant AllMet(t, id', origin', q', head, i) && Grows(id, id', origin, origin')
      invariant forall w :: w in id' ==> w in id || fresh(id'[w])
      invariant forall c :: c in origin' ==> c in origin || fresh(c)
      invariant id.Keys <= id'.Keys && (id'.Keys == id.Keys ==> q' == q)
    {
      id', origin', q' := RewireOne(t, id', origin', q', head, i);
      i := i + 1;
    }
    PortIsDone(t, id', origin', q', head);
  }

  lemma PortIsDone<Kind>(t: Source<Kind>, id: Identity<Kind>, origin: Origin<Kind>,
                         q: seq<PortObject<Kind>>, head: PortObject<Kind>)
    requires Copying(t, id, origin, q, head, |head.wires|) && AllMet(t, id, origin, q, head, |head.wires|)
    ensures Copying(t, id, origin, q, null, 0) && AllMet(t, id, origin, q, null, 0)
  {
    assert Partly(origin[head], head, id, |head.wires|);
    forall w | w in id && w.target != null ensures Met(t, w, origin, q, null, 0) {
      assert Met(t, w, origin, q, head, |head.wires|);
      if w != t.input && w != t.output {
        var c, i: nat :|
          && c in origin && c !in q && (c == head ==> i < |head.wires|)
          && i < |origin[c].wires| && origin[c].wires[i] == w;
        assert c in origin && c !in q && origin[c].wires[i] == w;
      }
    }
  }

  /* ---- The template ---- */

  // One copied port for each port of the pairs.
  ghost predicate Paired<Kind>(pairs: Pairs<Kind>, copies: Pairs<Kind>, origin: Origin<Kind>, n: nat) {
    && n <= |pairs| && n <= |copies|
    && forall i :: 0 <= i < n ==>
         && copies[i].0 in origin && origin[copies[i].0] == pairs[i].0
         && copies[i].1 in origin && origin[copies[i].1] == pairs[i].1
  }

  lemma NothingCopied<Kind>(t: Source<Kind>)
    requires t.Closed() && t.Linear()
    ensures Copying(t, map[], map[], [], null, 0) && Matched(t, map[], map[]) && AllMet(t, map[], map[], [], null, 0)
  {
  }

  method CopyInterfaces<Kind(==)>(input: WireObject<Kind>, output: WireObject<Kind>, ghost t: Source<Kind>)
    returns (id: Identity<Kind>, ghost origin: Origin<Kind>, q: seq<PortObject<Kind>>)
    requires t.Closed() && t.Linear() && input == t.input && output == t.output
    ensures t.Closed() && t.Linear() && Copying(t, id, origin, q, null, 0) && Matched(t, id, origin)
    ensures AllMet(t, id, origin, q, null, 0) && id.Keys == {input, output}
    ensures forall w :: w in id ==> fresh(id[w])
    ensures forall c :: c in origin ==> fresh(c) && origin[c] in t.Targets()
  {
    assert input in t.all && output in t.all && input != output;
    NothingCopied(t);
    hide Copying, Matched;
    id, origin, q := VisitWire(t, map[], map[], [], null, 0, input);
    id, origin, q := VisitWire(t, id, origin, q, null, 0, output);
  }

  lemma MatchEnd<Kind>(t: Source<Kind>, id: Identity<Kind>, origin: Origin<Kind>, p: PortObject<Kind>,
                       c: PortObject<Kind>)
    requires Matched(t, id, origin) && p in t.Ends() && p !in origin.Values && c !in origin
    ensures Matched(t, id, origin[c := p])
  {
    var origin' := origin[c := p];
    forall d | d in origin' ensures origin'[d] in t.Ends() || exists w :: w in id && w.target == origin'[d] {
      if d != c && origin[d] !in t.Ends() {
        var w :| w in id && w.target == origin[d];
        assert w.target == origin'[d];
      }
    }
  }

  lemma MetStill<Kind>(t: Source<Kind>, id: Identity<Kind>, origin: Origin<Kind>, q: seq<PortObject<Kind>>,
                       p: PortObject<Kind>, c: PortObject<Kind>)
    requires AllMet(t, id, origin, q, null, 0) && c !in origin
    ensures AllMet(t, id, origin[c := p], q + [c], null, 0)
  {
    var origin', q' := origin[c := p], q + [c];
    forall w | w in id && w.target != null ensures Met(t, w, origin', q', null, 0) {
      assert Met(t, w, origin, q, null, 0);
      if w != t.input && w != t.output {
        var d, i: nat :| d in origin && d !in q && i < |origin[d].wires| && origin[d].wires[i] == w;
        assert d in origin' && d !in q' && origin'[d].wires[i] == w;
      }
    }
  }

  method CopyPort<Kind(==)>(p: PortObject<Kind>, ghost t: Source<Kind>, ghost id: Identity<Kind>,
                            ghost origin: Origin<Kind>, q: seq<PortObject<Kind>>)
    returns (c: PortObject<Kind>, ghost origin': Origin<Kind>, q': seq<PortObject<Kind>>)
    requires t.Closed() && t.Linear() && Copying(t, id, origin, q, null, 0) && Matched(t, id, origin)
    requires AllMet(t, id, origin, q, null, 0) && p in t.Ends() && p !in origin.Values
    ensures t.Closed() && t.Linear() && Copying(t, id, origin', q', null, 0) && Matched(t, id, origin')
    ensures AllMet(t, id, origin', q', null, 0) && fresh(c) && origin' == origin[c := p]
  {
    hide Partly;
    c := new PortObject.Copy(p);
    q', origin' := q + [c], origin[c := p];
    Enqueue(t, id, origin, q, null, 0, p, c);
    MatchEnd(t, id, origin, p, c);
    MetStill(t, id, origin, q, p, c);
  }

  // The ports copied so far: targets, and those of the first n pairs.
  ghost predicate EndsUpTo<Kind>(t: Source<Kind>, origin: Origin<Kind>, n: nat)
    reads t.all
  {
    n <= |t.pairs|
    && forall c :: c in origin ==>
         origin[c] in t.Targets() || exists i :: 0 <= i < n && (origin[c] == t.pairs[i].0 || origin[c] == t.pairs[i].1)
  }

  lemma EndIsNew<Kind>(t: Source<Kind>, origin: Origin<Kind>, n: nat)
    requires t.Closed() && t.Linear() && EndsUpTo(t, origin, n) && n < |t.pairs|
    ensures t.pairs[n].0 in t.Ends() && t.pairs[n].0 !in origin.Values
    ensures t.pairs[n].1 in t.Ends() && t.pairs[n].1 !in origin.Values && t.pairs[n].1 != t.pairs[n].0
  {
  }

  lemma EndsGrow<Kind>(t: Source<Kind>, origin: Origin<Kind>, n: nat, l: PortObject<Kind>, r: PortObject<Kind>)
    requires EndsUpTo(t, origin, n) && n < |t.pairs|
    ensures EndsUpTo(t, origin[l := t.pairs[n].0][r := t.pairs[n].1], n + 1)
  {
    var origin' := origin[l := t.pairs[n].0][r := t.pairs[n].1];
    forall c | c in origin'
      ensures origin'[c] in t.Targets()
              || exists i :: 0 <= i < n + 1 && (origin'[c] == t.pairs[i].0 || origin'[c] == t.pairs[i].1)
    {
      if c == l || c == r {
        assert origin'[c] == t.pairs[n].0 || origin'[c] == t.pairs[n].1;
      } else if origin[c] !in t.Targets() {
        var i :| 0 <= i < n && (origin[c] == t.pairs[i].0 || origin[c] == t.pairs[i].1);
        assert origin'[c] == t.pairs[i].0 || origin'[c] == t.pairs[i].1;
      }
    }
  }

  method CopyBoth<Kind(==)>(l: PortObject<Kind>, r: PortObject<Kind>, ghost t: Source<Kind>, ghost id: Identity<Kind>,
                            ghost origin: Origin<Kind>, q: seq<PortObject<Kind>>, ghost k: nat)
    returns (ll: PortObject<Kind>, rr: PortObject<Kind>, ghost origin': Origin<Kind>, q': seq<PortObject<Kind>>)
    requires t.Closed() && t.Linear() && Copying(t, id, origin, q, null, 0) && Matched(t, id, origin)
    requires AllMet(t, id, origin, q, null, 0) && EndsUpTo(t, origin, k) && k < |t.pairs| && t.pairs[k] == (l, r)
    ensures t.Closed() && t.Linear() && Copying(t, id, origin', q', null, 0) && Matched(t, id, origin')
    ensures AllMet(t, id, origin', q', null, 0) && EndsUpTo(t, origin', k + 1)
    ensures fresh(ll) && fresh(rr) && origin' == origin[ll := l][rr := r]
    ensures ll != rr && ll !in origin && rr !in origin
  {
    hide Source.Linear, Source.Placed, Source.ReferredOnce, Source.Closed, Copying, Matched, AllMet, EndsUpTo;
    EndIsNew(t, origin, k);
    ll, origin', q' := CopyPort(l, t, id, origin, q);
    rr, origin', q' := CopyPort(r, t, id, origin', q');
    EndsGrow(t, origin, k, ll, rr);
  }

  lemma PairedMore<Kind>(pairs: Pairs<Kind>, copies: Pairs<Kind>, origin: Origin<Kind>, k: nat,
                         l: PortObject<Kind>, r: PortObject<Kind>)
    requires Paired(pairs, copies, origin, k) && |copies| == k < |pairs| && l !in origin && r !in origin && l != r
    ensures Paired(pairs, copies + [(l, r)], origin[l := pairs[k].0][r := pairs[k].1], k + 1)
  {
  }

  method CopyPairs<Kind(==)>(pairs: Pairs<Kind>, ghost t: Source<Kind>, ghost id: Identity<Kind>,
                             ghost origin: Origin<Kind>, q: seq<PortObject<Kind>>)
    returns (copies: Pairs<Kind>, ghost origin': Origin<Kind>, q': seq<PortObject<Kind>>)
    requires t.Closed() && t.Linear() && Copying(t, id, origin, q, null, 0) && Matched(t, id, origin)
    requires AllMet(t, id, origin, q, null, 0) && pairs == t.pairs
    requires forall c :: c in origin ==> origin[c] in t.Targets()
    ensures t.Closed() && t.Linear() && Copying(t, id, origin', q', null, 0) && Matched(t, id, origin')
    ensures AllMet(t, id, origin', q', null, 0) && |copies| == |pairs| && Paired(pairs, copies, origin', |pairs|)
    ensures forall c :: c in origin' ==> c in origin || fresh(c)
  {
    assert EndsUpTo(t, origin, 0);
    hide Source.Linear, Source.Placed, Source.ReferredOnce, Source.Closed, Copying, Matched, AllMet, EndsUpTo;
    assert Paired(pairs, [], origin, 0);
    hide Paired;
    copies, origin', q' := [], origin, q;
    for k := 0 to |pairs|
      invariant t.Closed() && t.Linear() && Copying(t, id, origin', q', null, 0) && Matched(t, id, origin')
      invariant AllMet(t, id, origin', q', null, 0) && EndsUpTo(t, origin', k)
      invariant |copies| == k && Paired(pairs, copies, origin', k)
      invariant forall c :: c in origin' ==> c in origin || fresh(c)
    {
      var ll, rr;
      ghost var before := origin';
      ll, rr, origin', q' := CopyBoth(pairs[k].0, pairs[k].1, t, id, origin', q', k);
      PairedMore(pairs, copies, before, k, ll, rr);
      copies := copies + [(ll, rr)];
    }
  }

  lemma TakeHead<Kind>(t: Source<Kind>, id: Identity<Kind>, origin: Origin<Kind>, q: seq<PortObject<Kind>>)
    requires Copying(t, id, origin, q, null, 0) && AllMet(t, id, origin, q, null, 0) && q != []
    ensures var head, rest := q[|q| - 1], q[..|q| - 1];
            Copying(t, id, origin, rest, head, 0) && AllMet(t, id, origin, rest, head, 0)
  {
    var head, rest := q[|q| - 1], q[..|q| - 1];
    forall w | w in id && w.target != null ensures Met(t, w, origin, rest, head, 0) {
      assert Met(t, w, origin, q, null, 0);
      if w != t.input && w != t.output {
        var c, i: nat :| c in origin && c !in q && i < |origin[c].wires| && origin[c].wires[i] == w;
        assert c in origin && c !in rest && c != head && origin[c].wires[i] == w;
      }
    }
  }

  lemma Fewer<Kind>(t: Source<Kind>, id: Identity<Kind>, origin: Origin<Kind>, q: seq<PortObject<Kind>>,
                    before: set<WireObject<Kind>>)
    requires Copying(t, id, origin, q, null, 0) && before <= id.Keys
    ensures t.all - id.Keys <= t.all - before && (t.all - id.Keys == t.all - before ==> id.Keys == before)
  {
    if t.all - id.Keys == t.all - before {
      forall w | w in id.Keys ensures w in before {
        assert w !in t.all - id.Keys;
      }
    }
  }

  lemma LinearParts<Kind>(t: Source<Kind>)
    requires t.Closed()
    ensures t.Linear() <==> t.Placed() && t.ReferredOnce()
  {
  }

  // What the copier leaves, seen as a template.
  ghost function Copied<Kind>(t: Source<Kind>, id: Identity<Kind>, copies: Pairs<Kind>): Source<Kind>
    requires t.input in id && t.output in id
  {
    Source(id[t.input], id[t.output], copies, id.Values)
  }

  /** materialize_template up to its connects. It changes nothing that was there
      before: not one of the template's ports or wires. What it makes is a copy of
      the template, apart from it and linear again: each wire that hangs on the
      template gets one of its own, and each port one, on those. The assertion that
      a wire met again is not set does not fail. */
  method Materialize<Kind(==)>(input: WireObject<Kind>, output: WireObject<Kind>, pairs: Pairs<Kind>,
                               ghost t: Source<Kind>)
    returns (id: Identity<Kind>, copies: Pairs<Kind>)
    requires t.input == input && t.output == output && t.pairs == pairs && t.Closed() && t.Linear()
    ensures input in id && output in id && id.Keys <= t.all
    ensures forall v, w :: v in id && w in id && id[v] == id[w] ==> v == w
    ensures forall w :: w in id ==> fresh(id[w]) && CopiedWire(w, id)
    ensures forall w :: w in id && w.target != null ==> fresh(id[w].target)
    ensures |copies| == |pairs|
    ensures forall i :: 0 <= i < |pairs| ==>
              && fresh(copies[i].0) && Rewired(pairs[i].0, copies[i].0, id)
              && fresh(copies[i].1) && Rewired(pairs[i].1, copies[i].1, id)
    ensures Copied(t, id, copies).Closed() && Copied(t, id, copies).Linear()
  {
    hide Source.Linear, Source.Placed, Source.ReferredOnce, Source.Closed, Copying, Matched, AllMet, Rewired,
         CopiedWire;
    var q;
    ghost var origin;
    id, origin, q := CopyInterfaces(input, output, t);
    copies, origin, q := CopyPairs(pairs, t, id, origin, q);
    while q != []
      invariant t.Closed() && t.Linear() && Copying(t, id, origin, q, null, 0) && Matched(t, id, origin)
      invariant AllMet(t, id, origin, q, null, 0) && input in id && output in id
      invariant forall w :: w in id ==> fresh(id[w])
      invariant forall c :: c in origin ==> fresh(c)
      invariant |copies| == |pairs| && Paired(pairs, copies, origin, |pairs|)
      decreases t.all - id.Keys, |q|
    {
      var head, rest := q[|q| - 1], q[..|q| - 1];
      TakeHead(t, id, origin, q);
      ghost var before := id.Keys;
      id, origin, q := RewirePort(t, id, origin, rest, head);
      Fewer(t, id, origin, q, before);
    }
    AllRewired(t, id, origin, copies);
    CopyIsClosed(t, id, origin, copies);
    LinearParts(t);
    CopyIsPlaced(t, id, origin, copies);
    CopyIsReferredOnce(t, id, origin, copies);
    LinearParts(Copied(t, id, copies));
  }

  lemma AllRewired<Kind>(t: Source<Kind>, id: Identity<Kind>, origin: Origin<Kind>, copies: Pairs<Kind>)
    requires Copying(t, id, origin, [], null, 0) && Matched(t, id, origin)
    requires |copies| == |t.pairs| && Paired(t.pairs, copies, origin, |t.pairs|)
    ensures id.Keys <= t.all && forall v, w :: v in id && w in id && id[v] == id[w] ==> v == w
    ensures forall w :: w in id ==> CopiedWire(w, id)
    ensures forall w :: w in id && w.target != null ==> id[w].target in origin
    ensures origin.Values <= t.Ports() && forall c :: c in origin ==> Rewired(origin[c], c, id)
    ensures forall i :: 0 <= i < |t.pairs| ==>
              Rewired(t.pairs[i].0, copies[i].0, id) && Rewired(t.pairs[i].1, copies[i].1, id)
  {
    assert forall c :: c in origin ==> Partly(origin[c], c, id, |origin[c].wires|);
  }

  // The ports of the copy are the copied ports.
  lemma CopiedPorts<Kind>(t: Source<Kind>, id: Identity<Kind>, origin: Origin<Kind>, copies: Pairs<Kind>,
                          c: PortObject<Kind>)
    requires t.input in id && t.output in id && Matched(t, id, origin)
    requires |copies| == |t.pairs| && Paired(t.pairs, copies, origin, |t.pairs|)
    ensures c in Copied(t, id, copies).Targets() ==>
              c in origin && exists w :: w in id && id[w].target == c && w.target == origin[c]
    ensures c in Copied(t, id, copies).Ends() ==> c in origin && origin[c] in t.Ends()
  {
    var s := Copied(t, id, copies);
    if c in s.Targets() {
      var v :| v in id.Values && v.target == c;
      var w :| w in id && id[w] == v;
      assert w in id && id[w].target == c;
    }
    if c in s.Ends() {
      var i :| 0 <= i < |copies| && (copies[i].0 == c || copies[i].1 == c);
      assert t.pairs[i].0 in t.Ends() && t.pairs[i].1 in t.Ends();
    }
  }

  lemma CopyIsClosed<Kind>(t: Source<Kind>, id: Identity<Kind>, origin: Origin<Kind>, copies: Pairs<Kind>)
    requires t.input in id && t.output in id && Matched(t, id, origin)
    requires |copies| == |t.pairs| && Paired(t.pairs, copies, origin, |t.pairs|)
    requires forall c :: c in origin ==> Rewired(origin[c], c, id)
    ensures Copied(t, id, copies).Closed()
  {
    var s := Copied(t, id, copies);
    forall p, i | p in s.Ports() && 0 <= i < |p.wires| ensures p.wires[i] in s.all {
      CopiedPorts(t, id, origin, copies, p);
      assert Rewired(origin[p], p, id);
    }
  }

  lemma CopyIsPlaced<Kind>(t: Source<Kind>, id: Identity<Kind>, origin: Origin<Kind>, copies: Pairs<Kind>)
    requires t.Placed() && t.input in id && t.output in id && id.Keys <= t.all && Matched(t, id, origin)
    requires |copies| == |t.pairs| && Paired(t.pairs, copies, origin, |t.pairs|)
    ensures Copied(t, id, copies).Placed()
  {
    var s := Copied(t, id, copies);
    forall v, w | v in s.all && w in s.all && v.target != null && v.target == w.target ensures v == w {
      var v0 :| v0 in id && id[v0] == v;
      var w0 :| w0 in id && id[w0] == w;
      assert v0.target == w0.target == origin[v.target];
    }
    forall c | c in s.Targets() && c in s.Ends() ensures false {
      CopiedPorts(t, id, origin, copies, c);
      CopiedTarget(t, id, origin, copies, c);
    }
  }

  lemma CopiedTarget<Kind>(t: Source<Kind>, id: Identity<Kind>, origin: Origin<Kind>, copies: Pairs<Kind>,
                           c: PortObject<Kind>)
    requires t.input in id && t.output in id && id.Keys <= t.all && Matched(t, id, origin)
    requires |copies| == |t.pairs| && Paired(t.pairs, copies, origin, |t.pairs|)
    requires c in Copied(t, id, copies).Targets()
    ensures c in origin && origin[c] in t.Targets()
  {
    CopiedPorts(t, id, origin, copies, c);
    var w :| w in id && id[w].target == c && w.target == origin[c];
    assert w in t.all;
  }

  // A reference of the copy is that of the original.
  lemma CopiedReference<Kind>(t: Source<Kind>, id: Identity<Kind>, origin: Origin<Kind>, p: PortObject<Kind>, i: nat)
    requires Matched(t, id, origin) && p in origin && i < |p.wires| && Rewired(origin[p], p, id)
    ensures var w := origin[p].wires[i];
            w in id && id[w] == p.wires[i] && (p.wires[i].target == null <==> w.target == null)
  {
  }

  lemma CopyIsReferredOnce<Kind>(t: Source<Kind>, id: Identity<Kind>, origin: Origin<Kind>, copies: Pairs<Kind>)
    requires t.Closed() && t.ReferredOnce() && t.input in id && t.output in id && Matched(t, id, origin)
    requires origin.Values <= t.Ports() && |copies| == |t.pairs| && Paired(t.pairs, copies, origin, |t.pairs|)
    requires forall c :: c in origin ==> Rewired(origin[c], c, id)
    requires Copied(t, id, copies).Closed()
    ensures Copied(t, id, copies).ReferredOnce()
  {
    hide Matched, Rewired;
    var s := Copied(t, id, copies);
    forall p, i: nat | p in s.Ports() && i < |p.wires| && p.wires[i].target != null
      ensures p.wires[i] != s.input && p.wires[i] != s.output
      ensures forall q, j :: q in s.Ports() && 0 <= j < |q.wires| && p.wires[i] == q.wires[j] ==> p == q && i == j
    {
      CopiedPorts(t, id, origin, copies, p);
      assert Rewired(origin[p], p, id);
      OriginalReference(t, id, origin, p, i);
      forall q, j: nat | q in s.Ports() && j < |q.wires| && p.wires[i] == q.wires[j] ensures p == q && i == j {
        CopiedPorts(t, id, origin, copies, q);
        assert Rewired(origin[q], q, id);
        SameReference(t, id, origin, p, i, q, j);
      }
    }
  }

  lemma OriginalReference<Kind>(t: Source<Kind>, id: Identity<Kind>, origin: Origin<Kind>, p: PortObject<Kind>, i: nat)
    requires t.Closed() && t.ReferredOnce() && t.input in id && t.output in id && Matched(t, id, origin)
    requires p in origin && origin[p] in t.Ports() && Rewired(origin[p], p, id) && i < |p.wires|
    requires p.wires[i].target != null
    ensures p.wires[i] != id[t.input] && p.wires[i] != id[t.output]
  {
    CopiedReference(t, id, origin, p, i);
    var w := origin[p].wires[i];
    assert w != t.input && w != t.output;
  }

  lemma SameReference<Kind>(t: Source<Kind>, id: Identity<Kind>, origin: Origin<Kind>,
                            p: PortObject<Kind>, i: nat, q: PortObject<Kind>, j: nat)
    requires t.Closed() && t.ReferredOnce() && Matched(t, id, origin)
    requires p in origin && origin[p] in t.Ports() && Rewired(origin[p], p, id) && i < |p.wires|
    requires q in origin && origin[q] in t.Ports() && Rewired(origin[q], q, id) && j < |q.wires|
    requires p.wires[i] == q.wires[j] && p.wires[i].target != null
    ensures p == q && i == j
  {
    CopiedReference(t, id, origin, p, i);
    CopiedReference(t, id, origin, q, j);
    assert origin[p].wires[i] == origin[q].wires[j];
    assert origin[p] == origin[q] && i == j;
  }
}
