/** materialize_template of src/natsune/backend/connector.py: copying a frozen
    net, with whatever sharing and cycles it has, onto fresh wires. */
module Templates {
  import opened Options
  import opened Nets

  datatype Template = Template(input: Wire, output: Wire, target: map<Wire, Port>, pairs: seq<Pair>)

  // Linearity of a template; its two interfaces count as references.
  ghost predicate LinearTemplate(t: Template) {
    t.input != t.output
    && forall w: Wire {:trigger PairsCount(t.pairs, w)} {:trigger MapCount(t.target, w)} ::
         PairsCount(t.pairs, w) + MapCount(t.target, w) + One(t.input, w) + One(t.output, w)
         <= if w in t.target then 1 else 2
  }

  /* ---- Renaming ---- */

  predicate Within(p: Port, m: map<Wire, Wire>) {
    forall i :: 0 <= i < |Wires(p)| ==> Wires(p)[i] in m
  }

  function Renamed(ws: seq<Wire>, m: map<Wire, Wire>): (r: seq<Wire>)
    requires forall i :: 0 <= i < |ws| ==> ws[i] in m
    ensures |r| == |ws| && forall i :: 0 <= i < |ws| ==> r[i] == m[ws[i]]
  {
    seq(|ws|, i requires 0 <= i < |ws| => m[ws[i]])
  }

  // `copy` is `original` on the renamed wires.
  ghost predicate Done(original: Port, copy: Port, m: map<Wire, Wire>) {
    Within(original, m) && copy == Rewired(original, Renamed(Wires(original), m))
  }

  ghost predicate Injective(m: map<Wire, Wire>) {
    forall v, w :: v in m && w in m && m[v] == m[w] ==> v == w
  }

  // The wires a copy cannot avoid: the interfaces, the pairs, and their targets'.
  ghost predicate Closed(t: Template, c: set<Wire>) {
    && t.input in c && t.output in c
    && (forall i, j :: 0 <= i < |t.pairs| && 0 <= j < |Wires(t.pairs[i].0)| ==> Wires(t.pairs[i].0)[j] in c)
    && (forall i, j :: 0 <= i < |t.pairs| && 0 <= j < |Wires(t.pairs[i].1)| ==> Wires(t.pairs[i].1)[j] in c)
    && (forall w, j :: w in c && w in t.target && 0 <= j < |Wires(t.target[w])| ==> Wires(t.target[w])[j] in c)
  }

  /** A fresh isomorphic copy of the reachable part of the template: `m` is a
      bijection onto wires from `next` up, and every set wire, every unset wire
      and every pair corresponds. */
  ghost predicate Copy(t: Template, next: Wire, m: map<Wire, Wire>, copied: map<Wire, Port>, pairs: seq<Pair>) {
    && t.input in m && t.output in m
    && Injective(m)
    && (forall w :: w in m ==> m[w] >= next)
    && (forall w :: w in m ==> (w in t.target <==> m[w] in copied))
    && (forall w :: w in m && w in t.target ==> Done(t.target[w], copied[m[w]], m))
    && copied.Keys <= m.Values
    && |pairs| == |t.pairs|
    && (forall i :: 0 <= i < |pairs| ==> Done(t.pairs[i].0, pairs[i].0, m) && Done(t.pairs[i].1, pairs[i].1, m))
    && ReachedOnly(t, m)
  }

  /* ---- The worklist ---- */

  // A copied port whose wires are still the template's.
  datatype Place = OfWire(source: Wire) | LeftOf(pair: nat) | RightOf(pair: nat)

  predicate ValidPlace(t: Template, at: Place, m: map<Wire, Wire>) {
    match at
    case OfWire(w) => w in m && w in t.target
    case LeftOf(i) => i < |t.pairs|
    case RightOf(i) => i < |t.pairs|
  }

  function Original(t: Template, at: Place): Port
    requires at.OfWire? ==> at.source in t.target
    requires !at.OfWire? ==> at.pair < |t.pairs|
  {
    match at
    case OfWire(w) => t.target[w]
    case LeftOf(i) => t.pairs[i].0
    case RightOf(i) => t.pairs[i].1
  }

  ghost predicate InOrder(original: Port, copy: Port, m: map<Wire, Wire>, waiting: bool) {
    if waiting then copy == original else Done(original, copy, m)
  }

  // The renaming so far: injective, onto wires from `next` up to `n`.
  ghost predicate Numbered(t: Template, next: Wire, n: Wire, m: map<Wire, Wire>) {
    && t.input in m && t.output in m
    && Injective(m)
    && (forall w :: w in m ==> next <= m[w] < n)
  }

  // A copied wire is set exactly when its original is.
  ghost predicate Matched(t: Template, m: map<Wire, Wire>, copied: map<Wire, Port>) {
    && (forall w :: w in m ==> (w in t.target <==> m[w] in copied))
    && copied.Keys <= m.Values
  }

  // Every copied port is rewired, or waits with the template's wires.
  ghost predicate Worked(t: Template, m: map<Wire, Wire>, copied: map<Wire, Port>, pairs: seq<Pair>, todo: set<Place>)
    requires Matched(t, m, copied)
  {
    && |pairs| == |t.pairs|
    && (forall at :: at in todo ==> ValidPlace(t, at, m))
    && (forall w :: w in m && w in t.target ==> InOrder(t.target[w], copied[m[w]], m, OfWire(w) in todo))
    && (forall i :: 0 <= i < |pairs| ==> InOrder(t.pairs[i].0, pairs[i].0, m, LeftOf(i) in todo))
    && (forall i :: 0 <= i < |pairs| ==> InOrder(t.pairs[i].1, pairs[i].1, m, RightOf(i) in todo))
  }

  // Nothing is copied that a closed set could do without.
  ghost predicate ReachedOnly(t: Template, m: map<Wire, Wire>) {
    forall c: set<Wire> {:trigger Closed(t, c)} :: Closed(t, c) ==> m.Keys <= c
  }

  ghost predicate Progress(t: Template, next: Wire, n: Wire, m: map<Wire, Wire>, copied: map<Wire, Port>,
                           pairs: seq<Pair>, todo: set<Place>) {
    Numbered(t, next, n, m) && Matched(t, m, copied) && Worked(t, m, copied, pairs, todo) && ReachedOnly(t, m)
  }

  function PlaceCount(t: Template, at: Place, w: Wire): nat {
    if (at.OfWire? && at.source in t.target) || (!at.OfWire? && at.pair < |t.pairs|) then PortCount(Original(t, at), w)
    else 0
  }

  function QueueCount(t: Template, q: seq<Place>, w: Wire): nat {
    if q == [] then 0 else QueueCount(t, q[..|q| - 1], w) + PlaceCount(t, q[|q| - 1], w)
  }

  lemma QueuePush(t: Template, q: seq<Place>, at: Place, w: Wire)
    ensures QueueCount(t, q + [at], w) == QueueCount(t, q, w) + PlaceCount(t, at, w)
  {
    assert (q + [at])[..|q|] == q;
  }

  /* A set wire has one reference: it is still to be read in the queue or in the
     port being rewired, or in a port not copied yet, or it has been followed. */
  ghost predicate Budget(t: Template, m: map<Wire, Wire>, q: seq<Place>, rest: seq<Wire>) {
    forall w: Wire {:trigger QueueCount(t, q, w)} :: w in t.target ==>
      QueueCount(t, q, w) + Occurrences(rest, w) + MapCount(t.target - m.Keys, w) + (if w in m then 1 else 0) <= 1
  }

  ghost predicate Distinct(q: seq<Place>) {
    forall i, j :: 0 <= i < j < |q| ==> q[i] != q[j]
  }

  lemma GrowKeepsDone(m: map<Wire, Wire>, m': map<Wire, Wire>, p: Port, q: Port)
    requires Done(p, q, m) && forall v :: v in m ==> v in m' && m'[v] == m[v]
    ensures Done(p, q, m')
  {
    assert Renamed(Wires(p), m) == Renamed(Wires(p), m');
  }

  lemma GrowKeepsOrder(m: map<Wire, Wire>, m': map<Wire, Wire>, p: Port, q: Port, waiting: bool)
    requires InOrder(p, q, m, waiting) && forall v :: v in m ==> v in m' && m'[v] == m[v]
    ensures InOrder(p, q, m', waiting)
  {
    if !waiting {
      GrowKeepsDone(m, m', p, q);
    }
  }

  function VisitedCopy(t: Template, copied: map<Wire, Port>, w: Wire, n: Wire): map<Wire, Port> {
    if w in t.target then copied[n := t.target[w]] else copied
  }

  function VisitedTodo(t: Template, todo: set<Place>, w: Wire): set<Place> {
    if w in t.target then todo + {OfWire(w)} else todo
  }

  lemma VisitKeepsMatched(t: Template, next: Wire, n: Wire, m: map<Wire, Wire>, copied: map<Wire, Port>, w: Wire)
    requires Numbered(t, next, n, m) && Matched(t, m, copied) && w !in m && n >= next
    ensures Numbered(t, next, n + 1, m[w := n]) && Matched(t, m[w := n], VisitedCopy(t, copied, w, n))
    ensures n !in copied
  {
    var m' := m[w := n];
    assert n !in m.Values;
    forall f | f in VisitedCopy(t, copied, w, n) ensures f in m'.Values {
      if f == n {
        assert m'[w] == n;
      } else {
        var v :| v in m && m[v] == f;
        assert m'[v] == f;
      }
    }
  }

  lemma VisitKeepsWorked(t: Template, next: Wire, n: Wire, m: map<Wire, Wire>, copied: map<Wire, Port>,
                         pairs: seq<Pair>, todo: set<Place>, w: Wire)
    requires Numbered(t, next, n, m) && Matched(t, m, copied) && Worked(t, m, copied, pairs, todo)
    requires w !in m && n >= next
    requires Matched(t, m[w := n], VisitedCopy(t, copied, w, n))
    ensures Worked(t, m[w := n], VisitedCopy(t, copied, w, n), pairs, VisitedTodo(t, todo, w))
  {
    var m', copied', todo' := m[w := n], VisitedCopy(t, copied, w, n), VisitedTodo(t, todo, w);
    forall v | v in m' && v in t.target
      ensures InOrder(t.target[v], copied'[m'[v]], m', OfWire(v) in todo')
    {
      if v != w {
        GrowKeepsOrder(m, m', t.target[v], copied[m[v]], OfWire(v) in todo);
      }
    }
    forall i | 0 <= i < |pairs|
      ensures InOrder(t.pairs[i].0, pairs[i].0, m', LeftOf(i) in todo')
      ensures InOrder(t.pairs[i].1, pairs[i].1, m', RightOf(i) in todo')
    {
      GrowKeepsOrder(m, m', t.pairs[i].0, pairs[i].0, LeftOf(i) in todo);
      GrowKeepsOrder(m, m', t.pairs[i].1, pairs[i].1, RightOf(i) in todo);
    }
  }

  lemma VisitKeepsReached(t: Template, m: map<Wire, Wire>, at: Place, j: nat, n: Wire)
    requires ValidPlace(t, at, m) && j < |Wires(Original(t, at))| && ReachedOnly(t, m)
    ensures ReachedOnly(t, m[Wires(Original(t, at))[j] := n])
  {
  }

  lemma VisitKeepsBudget(t: Template, m: map<Wire, Wire>, q: seq<Place>, rest: seq<Wire>, w: Wire, n: Wire)
    requires Budget(t, m, q, rest) && rest != [] && rest[0] == w && w !in m
    ensures w !in t.target ==> Budget(t, m[w := n], q, rest[1..])
    ensures w in t.target ==> Budget(t, m[w := n], q + [OfWire(w)], rest[1..])
  {
    var m' := m[w := n];
    var left, left' := t.target - m.Keys, t.target - m'.Keys;
    forall v: Wire | v in t.target
      ensures w !in t.target ==>
              QueueCount(t, q, v) + Occurrences(rest[1..], v) + MapCount(left', v) + (if v in m' then 1 else 0) <= 1
      ensures w in t.target ==>
        QueueCount(t, q + [OfWire(w)], v) + Occurrences(rest[1..], v) + MapCount(left', v)
        + (if v in m' then 1 else 0) <= 1
    {
      assert QueueCount(t, q, v) + Occurrences(rest, v) + MapCount(left, v) + (if v in m then 1 else 0) <= 1;
      if w in t.target {
        assert left' == left - {w};
        MapCountRemove(left, w, v);
        QueuePush(t, q, OfWire(w), v);
      } else {
        assert left' == left;
      }
    }
  }

  lemma FinishWire(t: Template, next: Wire, n: Wire, m: map<Wire, Wire>, copied: map<Wire, Port>,
                   pairs: seq<Pair>, todo: set<Place>, w: Wire, port: Port)
    requires Progress(t, next, n, m, copied, pairs, todo) && w in m && w in t.target
    requires Done(t.target[w], port, m)
    ensures Progress(t, next, n, m, copied[m[w] := port], pairs, todo - {OfWire(w)})
  {
    var copied', todo' := copied[m[w] := port], todo - {OfWire(w)};
    assert m[w] in copied;
    assert Matched(t, m, copied');
    forall v | v in m && v in t.target ensures InOrder(t.target[v], copied'[m[v]], m, OfWire(v) in todo') {
      assert v != w ==> m[v] != m[w];
      assert InOrder(t.target[v], copied[m[v]], m, OfWire(v) in todo);
    }
    forall i | 0 <= i < |pairs|
      ensures InOrder(t.pairs[i].0, pairs[i].0, m, LeftOf(i) in todo')
      ensures InOrder(t.pairs[i].1, pairs[i].1, m, RightOf(i) in todo')
    {
      assert LeftOf(i) in todo' <==> LeftOf(i) in todo;
      assert RightOf(i) in todo' <==> RightOf(i) in todo;
    }
  }

  lemma FinishPair(t: Template, next: Wire, n: Wire, m: map<Wire, Wire>, copied: map<Wire, Port>,
                   pairs: seq<Pair>, todo: set<Place>, head: Place, port: Port)
    requires Progress(t, next, n, m, copied, pairs, todo) && !head.OfWire? && ValidPlace(t, head, m)
    requires Done(Original(t, head), port, m)
    ensures var pair := if head.LeftOf? then (port, pairs[head.pair].1) else (pairs[head.pair].0, port);
            Progress(t, next, n, m, copied, pairs[head.pair := pair], todo - {head})
  {
    var k := head.pair;
    var pairs' := pairs[k := if head.LeftOf? then (port, pairs[k].1) else (pairs[k].0, port)];
    var todo' := todo - {head};
    forall v | v in m && v in t.target ensures InOrder(t.target[v], copied[m[v]], m, OfWire(v) in todo') {
      assert OfWire(v) in todo' <==> OfWire(v) in todo;
    }
    forall i | 0 <= i < |pairs'|
      ensures InOrder(t.pairs[i].0, pairs'[i].0, m, LeftOf(i) in todo')
      ensures InOrder(t.pairs[i].1, pairs'[i].1, m, RightOf(i) in todo')
    {
      assert InOrder(t.pairs[i].0, pairs[i].0, m, LeftOf(i) in todo);
      assert InOrder(t.pairs[i].1, pairs[i].1, m, RightOf(i) in todo);
    }
  }

  predicate Starts(t: Template, next: Wire, m: map<Wire, Wire>, copied: map<Wire, Port>, wires: seq<Place>)
  {
    && m == map[t.input := next, t.output := next + 1]
    && (forall f :: f in copied ==> f == next || f == next + 1)
    && (next in copied <==> t.input in t.target) && (next + 1 in copied <==> t.output in t.target)
    && (forall at :: at in wires ==> at == OfWire(t.input) || at == OfWire(t.output))
    && (OfWire(t.input) in wires <==> t.input in t.target) && (OfWire(t.output) in wires <==> t.output in t.target)
  }

  lemma StartProgress(t: Template, next: Wire, m: map<Wire, Wire>, copied: map<Wire, Port>, wires: seq<Place>,
                      todo: set<Place>)
    requires t.input != t.output && Starts(t, next, m, copied, wires)
    requires t.input in t.target ==> copied[next] == t.target[t.input]
    requires t.output in t.target ==> copied[next + 1] == t.target[t.output]
    requires forall at :: at in todo <==> at in wires || (!at.OfWire? && at.pair < |t.pairs|)
    ensures Progress(t, next, next + 2, m, copied, t.pairs, todo)
  {
    assert m[t.input] == next && m[t.output] == next + 1;
    assert next in m.Values && next + 1 in m.Values;
    forall at | at in todo ensures ValidPlace(t, at, m) {}
  }

  method StartCopy(t: Template, next: Wire)
    returns (m: map<Wire, Wire>, copied: map<Wire, Port>, wires: seq<Place>)
    requires LinearTemplate(t)
    ensures Starts(t, next, m, copied, wires) && Distinct(wires)
    ensures t.input in t.target ==> copied[next] == t.target[t.input]
    ensures t.output in t.target ==> copied[next + 1] == t.target[t.output]
    ensures forall w: Wire :: QueueCount(t, wires, w)
                           == (if t.input in t.target then PortCount(t.target[t.input], w) else 0)
                            + (if t.output in t.target then PortCount(t.target[t.output], w) else 0)
  {
    m := map[t.input := next, t.output := next + 1];
    copied, wires := map[], [];
    if t.input in t.target {
      copied := copied[next := t.target[t.input]];
      QueuesWire(t, wires, t.input);
      wires := wires + [OfWire(t.input)];
    }
    if t.output in t.target {
      copied := copied[next + 1 := t.target[t.output]];
      QueuesWire(t, wires, t.output);
      wires := wires + [OfWire(t.output)];
    }
  }

  method QueuePairs(t: Template, wires: seq<Place>) returns (q: seq<Place>)
    requires Distinct(wires) && forall at :: at in wires ==> at.OfWire?
    ensures Distinct(q)
    ensures forall at :: at in q <==> at in wires || (!at.OfWire? && at.pair < |t.pairs|)
    ensures forall w: Wire :: QueueCount(t, q, w) == QueueCount(t, wires, w) + PairsCount(t.pairs, w)
  {
    q := wires;
    var i := 0;
    while i < |t.pairs|
      invariant 0 <= i <= |t.pairs|
      invariant Distinct(q)
      invariant forall at :: at in q <==> at in wires || (!at.OfWire? && at.pair < i)
      invariant forall w: Wire :: QueueCount(t, q, w) == QueueCount(t, wires, w) + PairsCount(t.pairs[..i], w)
    {
      assert LeftOf(i) !in q && RightOf(i) !in q;
      forall w: Wire
        ensures QueueCount(t, q + [LeftOf(i)] + [RightOf(i)], w)
             == QueueCount(t, wires, w) + PairsCount(t.pairs[..i + 1], w)
      {
        QueuePush(t, q, LeftOf(i), w);
        QueuePush(t, q + [LeftOf(i)], RightOf(i), w);
        PairsCountAdd(t.pairs[..i], t.pairs[i], w);
        assert t.pairs[..i] + [t.pairs[i]] == t.pairs[..i + 1];
      }
      q := q + [LeftOf(i)] + [RightOf(i)];
      i := i + 1;
    }
    assert t.pairs[..|t.pairs|] == t.pairs;
  }

  lemma QueuesWire(t: Template, q: seq<Place>, v: Wire)
    requires v in t.target
    ensures forall w: Wire :: QueueCount(t, q + [OfWire(v)], w) == QueueCount(t, q, w) + PortCount(t.target[v], w)
  {
    forall w: Wire ensures QueueCount(t, q + [OfWire(v)], w) == QueueCount(t, q, w) + PortCount(t.target[v], w) {
      QueuePush(t, q, OfWire(v), w);
    }
  }

  // The targets of the interface wires are queued, so no longer uncopied.
  lemma StartBudget(t: Template, wires: seq<Place>, w: Wire)
    requires LinearTemplate(t) && w in t.target
    requires QueueCount(t, wires, w)
          == (if t.input in t.target then PortCount(t.target[t.input], w) else 0)
           + (if t.output in t.target then PortCount(t.target[t.output], w) else 0)
    ensures QueueCount(t, wires, w) + PairsCount(t.pairs, w) + MapCount(t.target - {t.input, t.output}, w)
            + (if w == t.input || w == t.output then 1 else 0) <= 1
  {
    var one := t.target - {t.input};
    if t.input in t.target {
      MapCountRemove(t.target, t.input, w);
    } else {
      assert one == t.target;
    }
    if t.output in one {
      MapCountRemove(one, t.output, w);
    } else {
      assert one - {t.output} == one;
    }
    assert one - {t.output} == t.target - {t.input, t.output};
  }

  // Places still to be rewired: the queue, and the port in hand.
  function Todo(q: seq<Place>, head: Place): set<Place> {
    (set at | at in q) + {head}
  }

  function VisitedQueue(t: Template, q: seq<Place>, w: Wire): seq<Place> {
    if w in t.target then q + [OfWire(w)] else q
  }

  // In the middle of rewiring the port at `head`, with `rest` still to read.
  ghost predicate Underway(t: Template, next: Wire, n: Wire, m: map<Wire, Wire>, copied: map<Wire, Port>,
                           pairs: seq<Pair>, q: seq<Place>, head: Place, rest: seq<Wire>) {
    && n >= next && ValidPlace(t, head, m) && head !in q && Distinct(q)
    && Progress(t, next, n, m, copied, pairs, Todo(q, head))
    && Budget(t, m, q, rest)
  }

  lemma VisitKeepsUnderway(t: Template, next: Wire, n: Wire, m: map<Wire, Wire>, copied: map<Wire, Port>,
                           pairs: seq<Pair>, q: seq<Place>, head: Place, j: nat)
    requires ValidPlace(t, head, m) && j < |Wires(Original(t, head))|
    requires Underway(t, next, n, m, copied, pairs, q, head, Wires(Original(t, head))[j..])
    requires Wires(Original(t, head))[j] !in m
    ensures var ws := Wires(Original(t, head));
            var q' := VisitedQueue(t, q, ws[j]);
            && ValidPlace(t, head, m[ws[j] := n])
            && Underway(t, next, n + 1, m[ws[j] := n], VisitedCopy(t, copied, ws[j], n), pairs, q', head, ws[j + 1..])
            && |t.target.Keys - m[ws[j] := n].Keys| + |q'| == |t.target.Keys - m.Keys| + |q|
  {
    var ws := Wires(Original(t, head));
    var w, todo := ws[j], Todo(q, head);
    assert ws[j..][1..] == ws[j + 1..];
    VisitKeepsMatched(t, next, n, m, copied, w);
    VisitKeepsWorked(t, next, n, m, copied, pairs, todo, w);
    VisitKeepsReached(t, m, head, j, n);
    VisitKeepsBudget(t, m, q, ws[j..], w, n);
    VisitShrinks(t, m, q, w, n);
    VisitedTodoIsQueued(t, m, copied, pairs, q, head, w);
  }

  lemma VisitedTodoIsQueued(t: Template, m: map<Wire, Wire>, copied: map<Wire, Port>, pairs: seq<Pair>,
                            q: seq<Place>, head: Place, w: Wire)
    requires Matched(t, m, copied) && Worked(t, m, copied, pairs, Todo(q, head)) && w !in m
    requires head !in q && Distinct(q)
    ensures Todo(VisitedQueue(t, q, w), head) == VisitedTodo(t, Todo(q, head), w)
    ensures head !in VisitedQueue(t, q, w) && Distinct(VisitedQueue(t, q, w))
  {
    var todo := Todo(q, head);
    assert OfWire(w) !in todo by {
      assert forall at :: at in todo ==> ValidPlace(t, at, m);
    }
    assert OfWire(w) !in q && OfWire(w) != head;
  }

  lemma MetAgainUnderway(t: Template, next: Wire, n: Wire, m: map<Wire, Wire>, copied: map<Wire, Port>,
                         pairs: seq<Pair>, q: seq<Place>, head: Place, ws: seq<Wire>, j: nat)
    requires j < |ws| && ws[j] in m
    requires Underway(t, next, n, m, copied, pairs, q, head, ws[j..])
    ensures m[ws[j]] !in copied
    ensures Underway(t, next, n, m, copied, pairs, q, head, ws[j + 1..])
  {
    assert ws[j..][1..] == ws[j + 1..];
    MetAgain(t, m, q, ws[j..]);
  }

  // The first i wires of the list have been replaced.
  ghost predicate RewiredTo(before: seq<Wire>, ws: seq<Wire>, m: map<Wire, Wire>, i: nat) {
    && |ws| == |before| && i <= |ws|
    && (forall j :: 0 <= j < i ==> before[j] in m && ws[j] == m[before[j]])
    && (forall j :: i <= j < |ws| ==> ws[j] == before[j])
  }

  lemma RewireNothing(ws: seq<Wire>, m: map<Wire, Wire>)
    ensures RewiredTo(ws, ws, m, 0)
  {
  }

  lemma RewireNext(before: seq<Wire>, ws: seq<Wire>, m: map<Wire, Wire>, i: nat)
    requires RewiredTo(before, ws, m, i) && i < |ws|
    ensures |ws| == |before| && ws[i] == before[i]
  {
  }

  lemma RewireKnown(before: seq<Wire>, ws: seq<Wire>, m: map<Wire, Wire>, i: nat)
    requires RewiredTo(before, ws, m, i) && i < |ws| && before[i] in m
    ensures RewiredTo(before, ws[i := m[before[i]]], m, i + 1)
  {
  }

  lemma RewireFresh(before: seq<Wire>, ws: seq<Wire>, m: map<Wire, Wire>, i: nat, n: Wire)
    requires RewiredTo(before, ws, m, i) && i < |ws| && before[i] !in m
    ensures RewiredTo(before, ws[i := n], m[before[i] := n], i + 1)
  {
  }

  lemma RewireDone(port: Port, ws: seq<Wire>, m: map<Wire, Wire>)
    requires RewiredTo(Wires(port), ws, m, |ws|)
    ensures Within(port, m) && ws == Renamed(Wires(port), m)
  {
  }

  /* Rewires one copied port, copying the wires it meets first. A wire met again
     has no target: a set wire has a single reference. */
  method RewirePort(t: Template, next: Wire, head: Place, port: Port, ghost pairs: seq<Pair>,
                    m0: map<Wire, Wire>, copied0: map<Wire, Port>, q0: seq<Place>, n0: Wire)
    returns (ws: seq<Wire>, m: map<Wire, Wire>, copied: map<Wire, Port>, q: seq<Place>, n: Wire)
    requires ValidPlace(t, head, m0) && port == Original(t, head)
    requires Underway(t, next, n0, m0, copied0, pairs, q0, head, Wires(port))
    ensures Underway(t, next, n, m, copied, pairs, q, head, [])
    ensures Within(port, m) && ws == Renamed(Wires(port), m)
    ensures |t.target.Keys - m.Keys| + |q| <= |t.target.Keys - m0.Keys| + |q0|
  {
    hide *;
    m, copied, q, n := m0, copied0, q0, n0;
    ws := Wires(port);
    ghost var old' := Wires(port);
    RewireNothing(old', m);
    assert old'[0..] == old';
    var i := 0;
    while i < |ws|
      invariant 0 <= i <= |ws| == |old'|
      invariant ValidPlace(t, head, m)
      invariant Underway(t, next, n, m, copied, pairs, q, head, old'[i..])
      invariant RewiredTo(old', ws, m, i)
      invariant |t.target.Keys - m.Keys| + |q| <= |t.target.Keys - m0.Keys| + |q0|
    {
      RewireNext(old', ws, m, i);
      var wire := ws[i];
      if wire in m {
        MetAgainUnderway(t, next, n, m, copied, pairs, q, head, old', i);
        assert m[wire] !in copied;
        RewireKnown(old', ws, m, i);
        ws := ws[i := m[wire]];
      } else {
        VisitKeepsUnderway(t, next, n, m, copied, pairs, q, head, i);
        RewireFresh(old', ws, m, i, n);
        copied := VisitedCopy(t, copied, wire, n);
        q := VisitedQueue(t, q, wire);
        m := m[wire := n];
        ws := ws[i := n];
        n := n + 1;
      }
      i := i + 1;
    }
    assert old'[i..] == [];
    RewireDone(port, ws, m);
  }

  lemma VisitShrinks(t: Template, m: map<Wire, Wire>, q: seq<Place>, w: Wire, n: Wire)
    requires w !in m
    ensures w !in t.target ==> |t.target.Keys - m[w := n].Keys| + |q| == |t.target.Keys - m.Keys| + |q|
    ensures w in t.target ==> |t.target.Keys - m[w := n].Keys| + |q + [OfWire(w)]| == |t.target.Keys - m.Keys| + |q|
  {
    var before := t.target.Keys - m.Keys;
    assert t.target.Keys - m[w := n].Keys == before - {w};
  }

  lemma MetAgain(t: Template, m: map<Wire, Wire>, q: seq<Place>, rest: seq<Wire>)
    requires Budget(t, m, q, rest) && rest != [] && rest[0] in m
    ensures rest[0] !in t.target
    ensures Budget(t, m, q, rest[1..])
  {
    var w := rest[0];
    assert w in t.target ==> QueueCount(t, q, w) + Occurrences(rest, w) <= 0;
    forall v: Wire | v in t.target
      ensures QueueCount(t, q, v) + Occurrences(rest[1..], v) + MapCount(t.target - m.Keys, v)
              + (if v in m then 1 else 0) <= 1
    {
      assert QueueCount(t, q, v) + Occurrences(rest, v) + MapCount(t.target - m.Keys, v)
             + (if v in m then 1 else 0) <= 1;
    }
  }

  // Between two ports: everything in the queue waits.
  ghost predicate Waiting(t: Template, next: Wire, n: Wire, m: map<Wire, Wire>, copied: map<Wire, Port>,
                          pairs: seq<Pair>, q: seq<Place>) {
    && n >= next && Distinct(q) && Budget(t, m, q, [])
    && Progress(t, next, n, m, copied, pairs, set at | at in q)
  }

  lemma NothingWaits(t: Template, next: Wire, n: Wire, m: map<Wire, Wire>, copied: map<Wire, Port>, pairs: seq<Pair>)
    requires Waiting(t, next, n, m, copied, pairs, [])
    ensures Copy(t, next, m, copied, pairs) && forall w :: w in m ==> m[w] < n
  {
    var none: seq<Place> := [];
    assert (set at | at in none) == {};
  }

  /** The copier: it ends on every linear template, cyclic or not. */
  method CopyTemplate(t: Template, next: Wire)
    returns (m: map<Wire, Wire>, copied: map<Wire, Port>, pairs: seq<Pair>, n: Wire)
    requires LinearTemplate(t)
    ensures Copy(t, next, m, copied, pairs)
    ensures forall w :: w in m ==> m[w] < n
  {
    var wires;
    m, copied, wires := StartCopy(t, next);
    var q := QueuePairs(t, wires);
    pairs, n := t.pairs, next + 2;
    StartProgress(t, next, m, copied, wires, set at | at in q);
    StartBudgets(t, m, wires, q);
    while q != []
      invariant Waiting(t, next, n, m, copied, pairs, q)
      decreases |t.target.Keys - m.Keys| + |q|
    {
      var head, front := q[|q| - 1], q[..|q| - 1];
      assert ValidPlace(t, head, m);
      PopUnderway(t, next, n, m, copied, pairs, q);
      var port := match head case OfWire(w) => copied[m[w]] case LeftOf(i) => pairs[i].0 case RightOf(i) => pairs[i].1;
      var ws;
      ws, m, copied, q, n := RewirePort(t, next, head, port, pairs, m, copied, front, n);
      FinishPlace(t, next, n, m, copied, pairs, q, head, Rewired(port, ws));
      match head {
        case OfWire(w) => copied := copied[m[w] := Rewired(port, ws)];
        case LeftOf(i) => pairs := pairs[i := (Rewired(port, ws), pairs[i].1)];
        case RightOf(i) => pairs := pairs[i := (pairs[i].0, Rewired(port, ws))];
      }
    }
    NothingWaits(t, next, n, m, copied, pairs);
  }

  lemma PopUnderway(t: Template, next: Wire, n: Wire, m: map<Wire, Wire>, copied: map<Wire, Port>,
                    pairs: seq<Pair>, q: seq<Place>)
    requires q != [] && Waiting(t, next, n, m, copied, pairs, q)
    ensures var head := q[|q| - 1];
            && ValidPlace(t, head, m)
            && Underway(t, next, n, m, copied, pairs, q[..|q| - 1], head, Wires(Original(t, head)))
            && Original(t, head) == match head
                                    case OfWire(w) => copied[m[w]]
                                    case LeftOf(i) => pairs[i].0
                                    case RightOf(i) => pairs[i].1
  {
    var head := q[|q| - 1];
    PopKeepsTodo(q);
    assert head in set at | at in q;
    PopKeepsBudget(t, m, q);
  }

  lemma FinishPlace(t: Template, next: Wire, n: Wire, m: map<Wire, Wire>, copied: map<Wire, Port>,
                    pairs: seq<Pair>, q: seq<Place>, head: Place, port: Port)
    requires Underway(t, next, n, m, copied, pairs, q, head, []) && Done(Original(t, head), port, m)
    ensures match head
            case OfWire(w) => Waiting(t, next, n, m, copied[m[w] := port], pairs, q)
            case LeftOf(i) => Waiting(t, next, n, m, copied, pairs[i := (port, pairs[i].1)], q)
            case RightOf(i) => Waiting(t, next, n, m, copied, pairs[i := (pairs[i].0, port)], q)
  {
    match head {
      case OfWire(w) => FinishWire(t, next, n, m, copied, pairs, Todo(q, head), w, port);
      case _ => FinishPair(t, next, n, m, copied, pairs, Todo(q, head), head, port);
    }
    assert Todo(q, head) - {head} == set at | at in q;
  }

  lemma PopKeepsTodo(q: seq<Place>)
    requires q != [] && Distinct(q)
    ensures var head, front := q[|q| - 1], q[..|q| - 1];
            head !in front && Distinct(front) && Todo(front, head) == set at | at in q
  {
    var head, front := q[|q| - 1], q[..|q| - 1];
    assert q == front + [head];
  }

  lemma StartBudgets(t: Template, m: map<Wire, Wire>, wires: seq<Place>, q: seq<Place>)
    requires LinearTemplate(t) && m.Keys == {t.input, t.output}
    requires forall w: Wire :: QueueCount(t, q, w) == QueueCount(t, wires, w) + PairsCount(t.pairs, w)
    requires forall w: Wire :: QueueCount(t, wires, w)
                            == (if t.input in t.target then PortCount(t.target[t.input], w) else 0)
                             + (if t.output in t.target then PortCount(t.target[t.output], w) else 0)
    ensures Budget(t, m, q, [])
  {
    forall w: Wire | w in t.target
      ensures QueueCount(t, q, w) + Occurrences([], w) + MapCount(t.target - m.Keys, w) + (if w in m then 1 else 0) <= 1
    {
      StartBudget(t, wires, w);
    }
  }

  lemma PopKeepsBudget(t: Template, m: map<Wire, Wire>, q: seq<Place>)
    requires Budget(t, m, q, []) && q != [] && ValidPlace(t, q[|q| - 1], m)
    ensures Budget(t, m, q[..|q| - 1], Wires(Original(t, q[|q| - 1])))
  {
    var head, front := q[|q| - 1], q[..|q| - 1];
    forall w: Wire | w in t.target
      ensures QueueCount(t, front, w) + Occurrences(Wires(Original(t, head)), w) + MapCount(t.target - m.Keys, w)
              + (if w in m then 1 else 0) <= 1
    {
      assert QueueCount(t, q, w) + Occurrences([], w) + MapCount(t.target - m.Keys, w) + (if w in m then 1 else 0) <= 1;
      OccurrencesOfPort(Original(t, head), w);
    }
  }

  /* ---- Counting references in a copy ---- */

  lemma {:induction false} RenamedCount(ws: seq<Wire>, m: map<Wire, Wire>, f: Wire)
    requires Injective(m) && forall i :: 0 <= i < |ws| ==> ws[i] in m
    ensures forall v :: v in m && m[v] == f ==> Occurrences(Renamed(ws, m), f) == Occurrences(ws, v)
    ensures f !in m.Values ==> Occurrences(Renamed(ws, m), f) == 0
    decreases |ws|
  {
    if ws != [] {
      RenamedCount(ws[1..], m, f);
      assert Renamed(ws, m)[1..] == Renamed(ws[1..], m);
      assert m[ws[0]] in m.Values;
    }
  }

  lemma DoneCount(original: Port, copy: Port, m: map<Wire, Wire>, f: Wire)
    requires Injective(m) && Done(original, copy, m)
    ensures forall v :: v in m && m[v] == f ==> PortCount(copy, f) == PortCount(original, v)
    ensures f !in m.Values ==> PortCount(copy, f) == 0
  {
    RenamedCount(Wires(original), m, f);
    OccurrencesOfPort(copy, f);
    forall v | v in m && m[v] == f ensures PortCount(copy, f) == PortCount(original, v) {
      OccurrencesOfPort(original, v);
    }
  }

  lemma {:induction false} PairsCopyCount(originals: seq<Pair>, copies: seq<Pair>, m: map<Wire, Wire>, f: Wire)
    requires Injective(m) && |originals| == |copies|
    requires forall i :: 0 <= i < |copies| ==>
             Done(originals[i].0, copies[i].0, m) && Done(originals[i].1, copies[i].1, m)
    ensures forall v :: v in m && m[v] == f ==> PairsCount(copies, f) == PairsCount(originals, v)
    ensures f !in m.Values ==> PairsCount(copies, f) == 0
    decreases |copies|
  {
    if copies != [] {
      var last := |copies| - 1;
      PairsCopyCount(originals[..last], copies[..last], m, f);
      DoneCount(originals[last].0, copies[last].0, m, f);
      DoneCount(originals[last].1, copies[last].1, m, f);
    }
  }

  // `copies` holds exactly the copies of `originals`.
  ghost predicate Copies(originals: map<Wire, Port>, copies: map<Wire, Port>, m: map<Wire, Wire>) {
    && originals.Keys <= m.Keys
    && (forall w :: w in originals ==> m[w] in copies && Done(originals[w], copies[m[w]], m))
    && (forall g :: g in copies ==> exists w :: w in originals && m[w] == g)
  }

  lemma CopiesShrink(originals: map<Wire, Port>, copies: map<Wire, Port>, m: map<Wire, Wire>, w: Wire)
    requires Injective(m) && Copies(originals, copies, m) && w in originals
    ensures Copies(originals - {w}, copies - {m[w]}, m)
  {
    forall g | g in copies - {m[w]} ensures exists v :: v in originals - {w} && m[v] == g {
      var v :| v in originals && m[v] == g;
      assert v in originals - {w};
    }
  }

  lemma {:induction false} MapCopyCount(originals: map<Wire, Port>, copies: map<Wire, Port>, m: map<Wire, Wire>,
                                        v: Wire)
    requires Injective(m) && Copies(originals, copies, m) && v in m
    ensures MapCount(copies, m[v]) == MapCount(originals, v)
    decreases |originals|
  {
    if originals == map[] {
      assert copies == map[] by { NoCopies(copies, m); }
    } else {
      var w :| w in originals;
      CopiesShrink(originals, copies, m, w);
      MapCopyCount(originals - {w}, copies - {m[w]}, m, v);
      DoneCount(originals[w], copies[m[w]], m, m[v]);
      MapCountRemove(copies, m[w], m[v]);
      MapCountRemove(originals, w, v);
    }
  }

  lemma {:induction false} MapCopyElsewhere(originals: map<Wire, Port>, copies: map<Wire, Port>, m: map<Wire, Wire>,
                                            f: Wire)
    requires Injective(m) && Copies(originals, copies, m) && f !in m.Values
    ensures MapCount(copies, f) == 0
    decreases |originals|
  {
    if originals == map[] {
      assert copies == map[] by { NoCopies(copies, m); }
    } else {
      var w :| w in originals;
      CopiesShrink(originals, copies, m, w);
      MapCopyElsewhere(originals - {w}, copies - {m[w]}, m, f);
      DoneCount(originals[w], copies[m[w]], m, f);
      MapCountRemove(copies, m[w], f);
    }
  }

  lemma NoCopies(copies: map<Wire, Port>, m: map<Wire, Wire>)
    requires Copies(map[], copies, m)
    ensures copies == map[]
  {
    if g :| g in copies {
      assert false;
    }
  }

  lemma {:induction false} MapCountSub(small: map<Wire, Port>, big: map<Wire, Port>, w: Wire)
    requires forall v :: v in small ==> v in big && small[v] == big[v]
    ensures MapCount(small, w) <= MapCount(big, w)
    decreases |small|
  {
    if small != map[] {
      var v :| v in small;
      MapCountRemove(small, v, w);
      MapCountRemove(big, v, w);
      MapCountSub(small - {v}, big - {v}, w);
    }
  }

  lemma UnionAdd(a: map<Wire, Port>, b: map<Wire, Port>, v: Wire)
    requires v in b
    ensures a + b == (a + (b - {v}))[v := b[v]]
  {
  }

  lemma {:induction false} MapCountUnion(a: map<Wire, Port>, b: map<Wire, Port>, w: Wire)
    requires a.Keys !! b.Keys
    ensures MapCount(a + b, w) == MapCount(a, w) + MapCount(b, w)
    decreases |b|
  {
    if b == map[] {
      assert a + b == a;
    } else {
      var v :| v in b;
      var rest := b - {v};
      MapCountUnion(a, rest, w);
      MapCountRemove(b, v, w);
      UnionAdd(a, b, v);
      var joined := a + rest;
      assert v !in joined;
      MapCountAdd(joined, v, b[v], w);
    }
  }

  // References to f from a copy and its two interfaces.
  ghost function CopyCount(t: Template, m: map<Wire, Wire>, copied: map<Wire, Port>, pairs: seq<Pair>, f: Wire): nat
    requires t.input in m && t.output in m
  {
    PairsCount(pairs, f) + MapCount(copied, f) + One(m[t.input], f) + One(m[t.output], f)
  }

  /** A copy of a linear template is linear, and touches no wire but its own. */
  lemma CopyIsLinear(t: Template, next: Wire, m: map<Wire, Wire>, copied: map<Wire, Port>, pairs: seq<Pair>, f: Wire)
    requires LinearTemplate(t) && Copy(t, next, m, copied, pairs)
    ensures CopyCount(t, m, copied, pairs, f) <= if f in copied then 1 else 2
    ensures f !in m.Values ==> CopyCount(t, m, copied, pairs, f) == 0
  {
    var reached := map w | w in m && w in t.target :: t.target[w];
    assert Copies(reached, copied, m) by {
      forall g | g in copied ensures exists w :: w in reached && m[w] == g {
        assert g in m.Values;
        var w :| w in m && m[w] == g;
        assert w in reached;
      }
    }
    PairsCopyCount(t.pairs, pairs, m, f);
    assert m[t.input] in m.Values && m[t.output] in m.Values;
    if f in m.Values {
      var v :| v in m && m[v] == f;
      MapCopyCount(reached, copied, m, v);
      MapCountSub(reached, t.target, v);
      assert PairsCount(t.pairs, v) + MapCount(t.target, v) + One(t.input, v) + One(t.output, v)
             <= if v in t.target then 1 else 2;
    } else {
      MapCopyElsewhere(reached, copied, m, f);
    }
  }
}
