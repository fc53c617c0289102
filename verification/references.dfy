/** ReferenceAdapter of src/natsune/first_order/adapters.py over plain values. A
    cell is a tuple of the current value and the final one, which whoever holds
    the cell promises to supply. */
module References {
  import opened Options
  import opened Nets

  // What one connection says about the trees on its wires.
  datatype Equation =
    | Same(a: Wire, b: Wire)
    | Tuple(whole: Wire, left: Wire, right: Wire)
    | Constant(wire: Wire, value: Value)
    | Empty(wire: Wire)

  predicate HoldsOne(e: Equation, sigma: map<Wire, Tree>) {
    match e
    case Same(a, b) => a in sigma && b in sigma && sigma[a] == sigma[b]
    case Tuple(w, l, r) => w in sigma && l in sigma && r in sigma && sigma[w] == Tupled(sigma[l], sigma[r])
    case Constant(w, v) => w in sigma && sigma[w] == Data(v)
    case Empty(w) => w in sigma && sigma[w] == Hole
  }

  predicate Holds(es: seq<Equation>, sigma: map<Wire, Tree>) {
    forall i :: 0 <= i < |es| ==> HoldsOne(es[i], sigma)
  }

  /* ---- The adapters' wiring; fresh wires are numbered from n ---- */

  // ValueAdapter.produce_egression: a duplicator. The value comes out on n.
  function ValueEgression(taken: Wire, given: Wire, n: Wire): seq<Equation> {
    [Same(n, taken), Same(n + 1, taken), Same(given, n + 1)]
  }

  // ReferenceAdapter.produce_egression: the loan comes out on n + 4.
  function Egression(taken: Wire, given: Wire, n: Wire): seq<Equation> {
    [Tuple(taken, n, n + 1), Tuple(given, n + 2, n + 3), Tuple(n + 4, n, n + 2), Same(n + 1, n + 3)]
  }

  // ReferenceAdapter.produce_ingression: the new cell goes in on n + 6. The old
  // current value is closed.
  function Ingression(taken: Wire, given: Wire, n: Wire): seq<Equation> {
    [Tuple(taken, n, n + 1), Tuple(given, n + 2, n + 3)]
    + ValueEgression(n + 3, n + 1, n + 4)
    + [Tuple(n + 6, n + 2, n + 4)]
  }

  // ReferenceAdapter.unpack: the value comes out on n + 2.
  function Unpack(target: Wire, n: Wire): seq<Equation> {
    [Tuple(target, n, n + 1)] + ValueEgression(n, n + 1, n + 2)
  }

  // ReferenceAdapter.repack: a cell around a value, its final side closed.
  function Repack(target: Wire, n: Wire): seq<Equation> {
    [Tuple(n, n + 1, n + 2), Same(n + 1, target)]
  }

  // ReferenceAdapter.close: the final value is the current one.
  function CloseCell(target: Wire, n: Wire): seq<Equation> {
    [Tuple(target, n, n + 1), Same(n, n + 1)]
  }

  /* ---- Programs: what is done with one register until it is closed ---- */

  datatype Op =
    | Write(value: Value)
    | Read
    | Lend(borrower: seq<Op>)

  function WireCount(ops: seq<Op>): nat {
    if ops == [] then 2
    else match ops[0]
      case Write(_) => 12 + WireCount(ops[1..])
      case Read => 10 + WireCount(ops[1..])
      case Lend(borrower) => 15 + WireCount(borrower) + WireCount(ops[1..])
  }

  function WriteWiring(v: Value, cell: Wire, n: Wire): seq<Equation> {
    Ingression(cell, n, n + 1) + [Constant(n + 8, v)] + Repack(n + 8, n + 9) + [Same(n + 9, n + 7)]
  }

  function ReadWiring(cell: Wire, n: Wire): seq<Equation> {
    Egression(cell, n, n + 1) + Unpack(n + 5, n + 6)
  }

  /* The borrower's register takes the loan in. Nothing is connected to its
     interface, n + 6, so its old current value, n + 8, is the erasure that closes
     it. */
  function LendWiring(cell: Wire, n: Wire): seq<Equation> {
    Egression(cell, n, n + 1)
    + [Empty(n + 8)]
    + Ingression(n + 6, n + 7, n + 8)
    + [Same(n + 5, n + 14)]
  }

  /* The register's cell is on `cell`; each operation extends it to a new cell on
     its first fresh wire. The equations do not depend on when a borrower's
     operations happen relative to the lender's. */
  function Wiring(ops: seq<Op>, cell: Wire, n: Wire): seq<Equation> {
    if ops == [] then CloseCell(cell, n)
    else match ops[0]
      case Write(v) => WriteWiring(v, cell, n) + Wiring(ops[1..], n, n + 12)
      case Read => ReadWiring(cell, n) + Wiring(ops[1..], n, n + 10)
      case Lend(borrower) =>
        LendWiring(cell, n) + Wiring(borrower, n + 7, n + 15)
        + Wiring(ops[1..], n, n + 15 + WireCount(borrower))
  }

  // Where the values read come out, in order, the borrowers' at their loan.
  function ReadWires(ops: seq<Op>, n: Wire): seq<Wire> {
    if ops == [] then []
    else match ops[0]
      case Write(_) => ReadWires(ops[1..], n + 12)
      case Read => [n + 8] + ReadWires(ops[1..], n + 10)
      case Lend(borrower) => ReadWires(borrower, n + 15) + ReadWires(ops[1..], n + 15 + WireCount(borrower))
  }

  /* ---- What mutable borrows mean ---- */

  // The value when the register is closed, if it starts as `current`.
  function Final(ops: seq<Op>, current: Tree): Tree {
    if ops == [] then current
    else match ops[0]
      case Write(v) => Final(ops[1..], Data(v))
      case Read => Final(ops[1..], current)
      case Lend(borrower) => Final(ops[1..], Final(borrower, current))
  }

  function ReadValues(ops: seq<Op>, current: Tree): seq<Tree> {
    if ops == [] then []
    else match ops[0]
      case Write(v) => ReadValues(ops[1..], Data(v))
      case Read => [current] + ReadValues(ops[1..], current)
      case Lend(borrower) => ReadValues(borrower, current) + ReadValues(ops[1..], Final(borrower, current))
  }

  // The last value written through the register or any loan of it.
  function LastWrite(ops: seq<Op>): Option<Value> {
    if ops == [] then None
    else if LastWrite(ops[1..]).Some? then LastWrite(ops[1..])
    else match ops[0]
      case Write(v) => Some(v)
      case Read => None
      case Lend(borrower) => LastWrite(borrower)
  }

  /* ---- The solution: the tree on each fresh wire, in order ---- */

  function WriteSolution(v: Tree, c: Tree, f: Tree): seq<Tree> {
    [Tupled(v, f), c, f, v, f, f, f, Tupled(v, f), v, Tupled(v, f), v, f]
  }

  function ReadSolution(c: Tree, f: Tree): seq<Tree> {
    [Tupled(c, f), c, f, c, f, Tupled(c, c), c, c, c, c]
  }

  // d is the value the borrower gives back.
  function LendSolution(c: Tree, f: Tree, d: Tree): seq<Tree> {
    [Tupled(d, f), c, f, d, f, Tupled(c, d), Tupled(Hole, d), Tupled(c, d),
     Hole, d, c, d, d, d, Tupled(c, d)]
  }

  // When the register's cell holds (c, f).
  function Solution(ops: seq<Op>, c: Tree, f: Tree): (r: seq<Tree>)
    ensures |r| == WireCount(ops)
  {
    if ops == [] then [c, c]
    else match ops[0]
      case Write(v) => WriteSolution(Data(v), c, f) + Solution(ops[1..], Data(v), f)
      case Read => ReadSolution(c, f) + Solution(ops[1..], c, f)
      case Lend(borrower) =>
        var d := Final(borrower, c);
        LendSolution(c, f, d) + Solution(borrower, c, d) + Solution(ops[1..], d, f)
  }

  predicate Is(sigma: map<Wire, Tree>, w: Wire, t: Tree) {
    w in sigma && sigma[w] == t
  }

  predicate Agrees(sigma: map<Wire, Tree>, n: Wire, trees: seq<Tree>) {
    forall i :: 0 <= i < |trees| ==> Is(sigma, n + i, trees[i])
  }

  lemma AgreesBoth(sigma: map<Wire, Tree>, n: Wire, a: seq<Tree>, b: seq<Tree>)
    ensures Agrees(sigma, n, a + b) <==> Agrees(sigma, n, a) && Agrees(sigma, n + |a|, b)
  {
    if Agrees(sigma, n, a + b) {
      forall i | 0 <= i < |a| ensures Is(sigma, n + i, a[i]) {
        assert (a + b)[i] == a[i];
      }
      forall i | 0 <= i < |b| ensures Is(sigma, n + |a| + i, b[i]) {
        assert (a + b)[|a| + i] == b[i];
      }
    }
  }

  lemma HoldsBoth(a: seq<Equation>, b: seq<Equation>, sigma: map<Wire, Tree>)
    ensures Holds(a + b, sigma) <==> Holds(a, sigma) && Holds(b, sigma)
  {
    if Holds(a + b, sigma) {
      forall i | 0 <= i < |a| ensures HoldsOne(a[i], sigma) {
        assert (a + b)[i] == a[i];
      }
      forall i | 0 <= i < |b| ensures HoldsOne(b[i], sigma) {
        assert (a + b)[|a| + i] == b[i];
      }
    }
  }

  lemma IngressionExactly(taken: Wire, given: Wire, n: Wire, sigma: map<Wire, Tree>)
    ensures Holds(Ingression(taken, given, n), sigma) <==>
            (&& HoldsOne(Tuple(taken, n, n + 1), sigma) && HoldsOne(Tuple(given, n + 2, n + 3), sigma)
             && HoldsOne(Same(n + 4, n + 3), sigma) && HoldsOne(Same(n + 5, n + 3), sigma)
             && HoldsOne(Same(n + 1, n + 5), sigma) && HoldsOne(Tuple(n + 6, n + 2, n + 4), sigma))
  {
    var es := Ingression(taken, given, n);
    assert es == [Tuple(taken, n, n + 1), Tuple(given, n + 2, n + 3), Same(n + 4, n + 3), Same(n + 5, n + 3),
                  Same(n + 1, n + 5), Tuple(n + 6, n + 2, n + 4)];
    if Holds(es, sigma) {
      assert HoldsOne(es[0], sigma) && HoldsOne(es[1], sigma) && HoldsOne(es[2], sigma);
      assert HoldsOne(es[3], sigma) && HoldsOne(es[4], sigma) && HoldsOne(es[5], sigma);
    }
  }

  lemma EgressionExactly(taken: Wire, given: Wire, n: Wire, sigma: map<Wire, Tree>)
    ensures Holds(Egression(taken, given, n), sigma) <==>
            (&& HoldsOne(Tuple(taken, n, n + 1), sigma) && HoldsOne(Tuple(given, n + 2, n + 3), sigma)
             && HoldsOne(Tuple(n + 4, n, n + 2), sigma) && HoldsOne(Same(n + 1, n + 3), sigma))
  {
    var es := Egression(taken, given, n);
    if Holds(es, sigma) {
      assert HoldsOne(es[0], sigma) && HoldsOne(es[1], sigma) && HoldsOne(es[2], sigma) && HoldsOne(es[3], sigma);
    }
  }

  lemma PairExactly(a: Equation, b: Equation, sigma: map<Wire, Tree>)
    ensures Holds([a, b], sigma) <==> HoldsOne(a, sigma) && HoldsOne(b, sigma)
  {
    if Holds([a, b], sigma) {
      assert HoldsOne([a, b][0], sigma) && HoldsOne([a, b][1], sigma);
    }
  }

  lemma OneExactly(a: Equation, sigma: map<Wire, Tree>)
    ensures Holds([a], sigma) <==> HoldsOne(a, sigma)
  {
    if Holds([a], sigma) {
      assert HoldsOne([a][0], sigma);
    }
  }

  lemma WriteFacts(v: Value, cell: Wire, n: Wire, c: Tree, f: Tree, sigma: map<Wire, Tree>)
    requires Is(sigma, cell, Tupled(c, f))
    ensures Holds(WriteWiring(v, cell, n), sigma) <==>
            (&& Is(sigma, n, Tupled(Data(v), f)) && Is(sigma, n + 1, c) && Is(sigma, n + 2, f)
             && Is(sigma, n + 3, Data(v))
             && Is(sigma, n + 4, f) && Is(sigma, n + 5, f) && Is(sigma, n + 6, f)
             && Is(sigma, n + 7, Tupled(Data(v), f))
             && Is(sigma, n + 8, Data(v)) && Is(sigma, n + 9, Tupled(Data(v), f)) && Is(sigma, n + 10, Data(v))
             && Is(sigma, n + 11, f))
  {
    var ing, packed := Ingression(cell, n, n + 1), Repack(n + 8, n + 9);
    HoldsBoth(ing, [Constant(n + 8, v)], sigma);
    HoldsBoth(ing + [Constant(n + 8, v)], packed, sigma);
    HoldsBoth(ing + [Constant(n + 8, v)] + packed, [Same(n + 9, n + 7)], sigma);
    IngressionExactly(cell, n, n + 1, sigma);
    OneExactly(Constant(n + 8, v), sigma);
    PairExactly(packed[0], packed[1], sigma);
    OneExactly(Same(n + 9, n + 7), sigma);
  }

  lemma WriteExactly(v: Value, cell: Wire, n: Wire, c: Tree, f: Tree, sigma: map<Wire, Tree>)
    requires Is(sigma, cell, Tupled(c, f))
    ensures Holds(WriteWiring(v, cell, n), sigma) <==> Agrees(sigma, n, WriteSolution(Data(v), c, f))
  {
    var t := WriteSolution(Data(v), c, f);
    WriteFacts(v, cell, n, c, f, sigma);
    if Agrees(sigma, n, t) {
      assert Is(sigma, n + 0, t[0]) && Is(sigma, n + 1, t[1]) && Is(sigma, n + 2, t[2]) && Is(sigma, n + 3, t[3]);
      assert Is(sigma, n + 4, t[4]) && Is(sigma, n + 5, t[5]) && Is(sigma, n + 6, t[6]) && Is(sigma, n + 7, t[7]);
      assert Is(sigma, n + 8, t[8]) && Is(sigma, n + 9, t[9]) && Is(sigma, n + 10, t[10]) && Is(sigma, n + 11, t[11]);
    }
  }

  lemma ReadFacts(cell: Wire, n: Wire, c: Tree, f: Tree, sigma: map<Wire, Tree>)
    requires Is(sigma, cell, Tupled(c, f))
    ensures Holds(ReadWiring(cell, n), sigma) <==>
            (&& Is(sigma, n, Tupled(c, f)) && Is(sigma, n + 1, c) && Is(sigma, n + 2, f) && Is(sigma, n + 3, c)
             && Is(sigma, n + 4, f) && Is(sigma, n + 5, Tupled(c, c)) && Is(sigma, n + 6, c) && Is(sigma, n + 7, c)
             && Is(sigma, n + 8, c) && Is(sigma, n + 9, c))
  {
    HoldsBoth(Egression(cell, n, n + 1), Unpack(n + 5, n + 6), sigma);
    EgressionExactly(cell, n, n + 1, sigma);
    var es := Unpack(n + 5, n + 6);
    assert es == [Tuple(n + 5, n + 6, n + 7), Same(n + 8, n + 6), Same(n + 9, n + 6), Same(n + 7, n + 9)];
    if Holds(es, sigma) {
      assert HoldsOne(es[0], sigma) && HoldsOne(es[1], sigma) && HoldsOne(es[2], sigma) && HoldsOne(es[3], sigma);
    }
  }

  lemma ReadExactly(cell: Wire, n: Wire, c: Tree, f: Tree, sigma: map<Wire, Tree>)
    requires Is(sigma, cell, Tupled(c, f))
    ensures Holds(ReadWiring(cell, n), sigma) <==> Agrees(sigma, n, ReadSolution(c, f))
  {
    var t := ReadSolution(c, f);
    ReadFacts(cell, n, c, f, sigma);
    if Agrees(sigma, n, t) {
      assert Is(sigma, n + 0, t[0]) && Is(sigma, n + 1, t[1]) && Is(sigma, n + 2, t[2]) && Is(sigma, n + 3, t[3]);
      assert Is(sigma, n + 4, t[4]) && Is(sigma, n + 5, t[5]) && Is(sigma, n + 6, t[6]) && Is(sigma, n + 7, t[7]);
      assert Is(sigma, n + 8, t[8]) && Is(sigma, n + 9, t[9]);
    }
  }

  lemma LendFacts(cell: Wire, n: Wire, c: Tree, f: Tree, d: Tree, sigma: map<Wire, Tree>)
    requires Is(sigma, cell, Tupled(c, f)) && Is(sigma, n + 3, d)
    ensures Holds(LendWiring(cell, n), sigma) <==>
            (&& Is(sigma, n, Tupled(d, f)) && Is(sigma, n + 1, c) && Is(sigma, n + 2, f) && Is(sigma, n + 3, d)
             && Is(sigma, n + 4, f) && Is(sigma, n + 5, Tupled(c, d)) && Is(sigma, n + 6, Tupled(Hole, d))
             && Is(sigma, n + 7, Tupled(c, d)) && Is(sigma, n + 8, Hole) && Is(sigma, n + 9, d) && Is(sigma, n + 10, c)
             && Is(sigma, n + 11, d) && Is(sigma, n + 12, d) && Is(sigma, n + 13, d) && Is(sigma, n + 14, Tupled(c, d)))
  {
    LendParts(cell, n, sigma);
    EgressionExactly(cell, n, n + 1, sigma);
    OneExactly(Empty(n + 8), sigma);
    IngressionExactly(n + 6, n + 7, n + 8, sigma);
    OneExactly(Same(n + 5, n + 14), sigma);
  }

  lemma LendParts(cell: Wire, n: Wire, sigma: map<Wire, Tree>)
    ensures Holds(LendWiring(cell, n), sigma) <==>
            (&& Holds(Egression(cell, n, n + 1), sigma) && Holds([Empty(n + 8)], sigma)
             && Holds(Ingression(n + 6, n + 7, n + 8), sigma) && Holds([Same(n + 5, n + 14)], sigma))
  {
    var out, start := Egression(cell, n, n + 1), [Empty(n + 8)];
    var ing := Ingression(n + 6, n + 7, n + 8);
    HoldsBoth(out, start, sigma);
    HoldsBoth(out + start, ing, sigma);
    HoldsBoth(out + start + ing, [Same(n + 5, n + 14)], sigma);
  }

  // The loan alone does not say what comes back: any d fits, on n + 3.
  lemma LendExactly(cell: Wire, n: Wire, c: Tree, f: Tree, sigma: map<Wire, Tree>)
    requires Is(sigma, cell, Tupled(c, f))
    ensures Holds(LendWiring(cell, n), sigma) ==> n + 3 in sigma
    ensures n + 3 in sigma ==>
              (Holds(LendWiring(cell, n), sigma) <==> Agrees(sigma, n, LendSolution(c, f, sigma[n + 3])))
  {
    if Holds(LendWiring(cell, n), sigma) {
      LendParts(cell, n, sigma);
      EgressionExactly(cell, n, n + 1, sigma);
    }
    if n + 3 in sigma {
      var t := LendSolution(c, f, sigma[n + 3]);
      LendFacts(cell, n, c, f, sigma[n + 3], sigma);
      if Agrees(sigma, n, t) {
        assert Is(sigma, n + 0, t[0]) && Is(sigma, n + 1, t[1]) && Is(sigma, n + 2, t[2]) && Is(sigma, n + 3, t[3]);
        assert Is(sigma, n + 4, t[4]) && Is(sigma, n + 5, t[5]) && Is(sigma, n + 6, t[6]) && Is(sigma, n + 7, t[7]);
        assert Is(sigma, n + 8, t[8]) && Is(sigma, n + 9, t[9]) && Is(sigma, n + 10, t[10]) && Is(sigma, n + 11, t[11]);
        assert Is(sigma, n + 12, t[12]) && Is(sigma, n + 13, t[13]) && Is(sigma, n + 14, t[14]);
      }
    }
  }

  lemma WriteCase(v: Value, rest: seq<Op>, cell: Wire, n: Wire, c: Tree, f: Tree, sigma: map<Wire, Tree>)
    requires Is(sigma, cell, Tupled(c, f))
    requires Is(sigma, n, Tupled(Data(v), f)) ==>
               (Holds(Wiring(rest, n, n + 12), sigma) <==>
                f == Final(rest, Data(v)) && Agrees(sigma, n + 12, Solution(rest, Data(v), f)))
    ensures Holds(WriteWiring(v, cell, n) + Wiring(rest, n, n + 12), sigma) <==>
            f == Final(rest, Data(v)) && Agrees(sigma, n, WriteSolution(Data(v), c, f) + Solution(rest, Data(v), f))
  {
    hide Wiring, Solution, Agrees, Holds, WriteWiring, Final;
    HoldsBoth(WriteWiring(v, cell, n), Wiring(rest, n, n + 12), sigma);
    WriteExactly(v, cell, n, c, f, sigma);
    AgreesBoth(sigma, n, WriteSolution(Data(v), c, f), Solution(rest, Data(v), f));
    if Agrees(sigma, n, WriteSolution(Data(v), c, f)) {
      NewCell(sigma, n, WriteSolution(Data(v), c, f), 0);
    }
  }

  lemma ReadCase(rest: seq<Op>, cell: Wire, n: Wire, c: Tree, f: Tree, sigma: map<Wire, Tree>)
    requires Is(sigma, cell, Tupled(c, f))
    requires Is(sigma, n, Tupled(c, f)) ==>
               (Holds(Wiring(rest, n, n + 10), sigma) <==>
                f == Final(rest, c) && Agrees(sigma, n + 10, Solution(rest, c, f)))
    ensures Holds(ReadWiring(cell, n) + Wiring(rest, n, n + 10), sigma) <==>
            f == Final(rest, c) && Agrees(sigma, n, ReadSolution(c, f) + Solution(rest, c, f))
  {
    hide Wiring, Solution, Agrees, Holds, ReadWiring, Final;
    HoldsBoth(ReadWiring(cell, n), Wiring(rest, n, n + 10), sigma);
    ReadExactly(cell, n, c, f, sigma);
    AgreesBoth(sigma, n, ReadSolution(c, f), Solution(rest, c, f));
    if Agrees(sigma, n, ReadSolution(c, f)) {
      NewCell(sigma, n, ReadSolution(c, f), 0);
    }
  }

  // What WiringExactly says of one register.
  predicate Exactly(ops: seq<Op>, cell: Wire, n: Wire, c: Tree, f: Tree, sigma: map<Wire, Tree>) {
    Holds(Wiring(ops, cell, n), sigma) <==> f == Final(ops, c) && Agrees(sigma, n, Solution(ops, c, f))
  }

  lemma ClosedExactly(cell: Wire, n: Wire, c: Tree, f: Tree, sigma: map<Wire, Tree>)
    requires Is(sigma, cell, Tupled(c, f))
    ensures Exactly([], cell, n, c, f, sigma)
  {
    PairExactly(CloseCell(cell, n)[0], CloseCell(cell, n)[1], sigma);
    if Agrees(sigma, n, [c, c]) {
      assert Is(sigma, n + 0, [c, c][0]) && Is(sigma, n + 1, [c, c][1]);
    }
  }

  lemma WriteStep(ops: seq<Op>, cell: Wire, n: Wire, c: Tree, f: Tree, sigma: map<Wire, Tree>)
    requires ops != [] && ops[0].Write? && Is(sigma, cell, Tupled(c, f))
    requires Is(sigma, n, Tupled(Data(ops[0].value), f)) ==> Exactly(ops[1..], n, n + 12, Data(ops[0].value), f, sigma)
    ensures Exactly(ops, cell, n, c, f, sigma)
  {
    WriteCase(ops[0].value, ops[1..], cell, n, c, f, sigma);
  }

  lemma ReadStep(ops: seq<Op>, cell: Wire, n: Wire, c: Tree, f: Tree, sigma: map<Wire, Tree>)
    requires ops != [] && ops[0].Read? && Is(sigma, cell, Tupled(c, f))
    requires Is(sigma, n, Tupled(c, f)) ==> Exactly(ops[1..], n, n + 10, c, f, sigma)
    ensures Exactly(ops, cell, n, c, f, sigma)
  {
    ReadCase(ops[1..], cell, n, c, f, sigma);
  }

  // The borrower's wiring decides e; the lender goes on with it.
  lemma LendCase(borrower: seq<Op>, rest: seq<Op>, cell: Wire, n: Wire, c: Tree, f: Tree, e: Tree,
                 sigma: map<Wire, Tree>)
    requires Is(sigma, cell, Tupled(c, f)) && Is(sigma, n + 3, e)
    requires Is(sigma, n + 7, Tupled(c, e)) ==>
               (Holds(Wiring(borrower, n + 7, n + 15), sigma) <==>
                e == Final(borrower, c) && Agrees(sigma, n + 15, Solution(borrower, c, e)))
    requires var m := n + 15 + WireCount(borrower);
             Is(sigma, n, Tupled(e, f)) ==>
               (Holds(Wiring(rest, n, m), sigma) <==> f == Final(rest, e) && Agrees(sigma, m, Solution(rest, e, f)))
    ensures var m, d := n + 15 + WireCount(borrower), Final(borrower, c);
            Holds(LendWiring(cell, n) + Wiring(borrower, n + 7, n + 15) + Wiring(rest, n, m), sigma) <==>
            f == Final(rest, d)
            && Agrees(sigma, n, LendSolution(c, f, d) + Solution(borrower, c, d) + Solution(rest, d, f))
  {
    var d := Final(borrower, c);
    LendHolds(borrower, rest, cell, n, c, f, sigma);
    LendAgrees(borrower, rest, n, c, f, sigma);
    LendExactly(cell, n, c, f, sigma);
    if Agrees(sigma, n, LendSolution(c, f, e)) {
      NewCell(sigma, n, LendSolution(c, f, e), 0);
      NewCell(sigma, n, LendSolution(c, f, e), 7);
    }
    if Agrees(sigma, n, LendSolution(c, f, d)) {
      NewCell(sigma, n, LendSolution(c, f, d), 3);
    }
  }

  lemma LendStep(ops: seq<Op>, cell: Wire, n: Wire, c: Tree, f: Tree, e: Tree, sigma: map<Wire, Tree>)
    requires ops != [] && ops[0].Lend? && Is(sigma, cell, Tupled(c, f)) && Is(sigma, n + 3, e)
    requires Is(sigma, n + 7, Tupled(c, e)) ==> Exactly(ops[0].borrower, n + 7, n + 15, c, e, sigma)
    requires Is(sigma, n, Tupled(e, f)) ==>
               Exactly(ops[1..], n, n + 15 + WireCount(ops[0].borrower), e, f, sigma)
    ensures Exactly(ops, cell, n, c, f, sigma)
  {
    LendCase(ops[0].borrower, ops[1..], cell, n, c, f, e, sigma);
  }

  // Without a tree on n + 3 neither side holds.
  lemma LendUnassigned(borrower: seq<Op>, rest: seq<Op>, cell: Wire, n: Wire, c: Tree, f: Tree, sigma: map<Wire, Tree>)
    requires Is(sigma, cell, Tupled(c, f)) && n + 3 !in sigma
    ensures var m, d := n + 15 + WireCount(borrower), Final(borrower, c);
            && !Holds(LendWiring(cell, n) + Wiring(borrower, n + 7, n + 15) + Wiring(rest, n, m), sigma)
            && !Agrees(sigma, n, LendSolution(c, f, d) + Solution(borrower, c, d) + Solution(rest, d, f))
  {
    var d := Final(borrower, c);
    LendHolds(borrower, rest, cell, n, c, f, sigma);
    LendAgrees(borrower, rest, n, c, f, sigma);
    LendExactly(cell, n, c, f, sigma);
    if Agrees(sigma, n, LendSolution(c, f, d)) {
      NewCell(sigma, n, LendSolution(c, f, d), 3);
    }
  }

  lemma LendAbsent(ops: seq<Op>, cell: Wire, n: Wire, c: Tree, f: Tree, sigma: map<Wire, Tree>)
    requires ops != [] && ops[0].Lend? && Is(sigma, cell, Tupled(c, f)) && n + 3 !in sigma
    ensures Exactly(ops, cell, n, c, f, sigma)
  {
    LendUnassigned(ops[0].borrower, ops[1..], cell, n, c, f, sigma);
  }

  /** The wiring of any tree of loans holds of an assignment exactly when the
      lender's final value is the borrow semantics' and every wire is as computed. */
  lemma {:induction false} WiringExactly(ops: seq<Op>, cell: Wire, n: Wire, c: Tree, f: Tree, sigma: map<Wire, Tree>)
    requires Is(sigma, cell, Tupled(c, f))
    ensures Exactly(ops, cell, n, c, f, sigma)
    decreases ops
  {
    hide *;
    if ops == [] {
      ClosedExactly(cell, n, c, f, sigma);
    } else {
      var rest := ops[1..];
      match ops[0]
      case Write(v) =>
        if Is(sigma, n, Tupled(Data(v), f)) {
          WiringExactly(rest, n, n + 12, Data(v), f, sigma);
        }
        WriteStep(ops, cell, n, c, f, sigma);
      case Read =>
        if Is(sigma, n, Tupled(c, f)) {
          WiringExactly(rest, n, n + 10, c, f, sigma);
        }
        ReadStep(ops, cell, n, c, f, sigma);
      case Lend(borrower) =>
        if n + 3 in sigma {
          var e := sigma[n + 3];
          if Is(sigma, n + 7, Tupled(c, e)) {
            WiringExactly(borrower, n + 7, n + 15, c, e, sigma);
          }
          if Is(sigma, n, Tupled(e, f)) {
            WiringExactly(rest, n, n + 15 + WireCount(borrower), e, f, sigma);
          }
          LendStep(ops, cell, n, c, f, e, sigma);
        } else {
          LendAbsent(ops, cell, n, c, f, sigma);
        }
    }
  }

  lemma NewCell(sigma: map<Wire, Tree>, n: Wire, trees: seq<Tree>, i: nat)
    requires Agrees(sigma, n, trees) && i < |trees|
    ensures Is(sigma, n + i, trees[i])
  {
  }

  lemma LendHolds(borrower: seq<Op>, rest: seq<Op>, cell: Wire, n: Wire, c: Tree, f: Tree, sigma: map<Wire, Tree>)
    ensures var m := n + 15 + WireCount(borrower);
            Holds(LendWiring(cell, n) + Wiring(borrower, n + 7, n + 15) + Wiring(rest, n, m), sigma) <==>
            (&& Holds(LendWiring(cell, n), sigma) && Holds(Wiring(borrower, n + 7, n + 15), sigma)
             && Holds(Wiring(rest, n, m), sigma))
  {
    var m := n + 15 + WireCount(borrower);
    HoldsBoth(LendWiring(cell, n), Wiring(borrower, n + 7, n + 15), sigma);
    HoldsBoth(LendWiring(cell, n) + Wiring(borrower, n + 7, n + 15), Wiring(rest, n, m), sigma);
  }

  lemma LendAgrees(borrower: seq<Op>, rest: seq<Op>, n: Wire, c: Tree, f: Tree, sigma: map<Wire, Tree>)
    ensures var m, d := n + 15 + WireCount(borrower), Final(borrower, c);
            Agrees(sigma, n, LendSolution(c, f, d) + Solution(borrower, c, d) + Solution(rest, d, f)) <==>
            (Agrees(sigma, n, LendSolution(c, f, d)) && Agrees(sigma, n + 15, Solution(borrower, c, d))
             && Agrees(sigma, m, Solution(rest, d, f)))
  {
    var d := Final(borrower, c);
    AgreesBoth(sigma, n, LendSolution(c, f, d), Solution(borrower, c, d));
    AgreesBoth(sigma, n, LendSolution(c, f, d) + Solution(borrower, c, d), Solution(rest, d, f));
  }

  // The wires from n up as a map.
  function Laid(n: Wire, trees: seq<Tree>): (m: map<Wire, Tree>)
    ensures forall w :: w in m ==> n <= w < n + |trees|
    ensures Agrees(m, n, trees)
    decreases |trees|
  {
    if trees == [] then map[]
    else
      var m := Laid(n, trees[..|trees| - 1]);
      m[n + |trees| - 1 := trees[|trees| - 1]]
  }

  // The cell and every wire from n up, as an assignment.
  function Assignment(ops: seq<Op>, cell: Wire, n: Wire, c: Tree): map<Wire, Tree> {
    Laid(n, Solution(ops, c, Final(ops, c)))[cell := Tupled(c, Final(ops, c))]
  }

  /** Exactly one solution: for any value lent the wiring has one, and any other
      assignment that satisfies it agrees on the lender's final value and on
      every wire. */
  lemma ExactlyOneSolution(ops: seq<Op>, cell: Wire, n: Wire, c: Tree)
    requires cell < n
    ensures Holds(Wiring(ops, cell, n), Assignment(ops, cell, n, c))
    ensures forall sigma: map<Wire, Tree>, g: Tree ::
              Is(sigma, cell, Tupled(c, g)) && Holds(Wiring(ops, cell, n), sigma) ==>
              g == Final(ops, c) && Agrees(sigma, n, Solution(ops, c, Final(ops, c)))
  {
    var f := Final(ops, c);
    var trees, unique := Solution(ops, c, f), Assignment(ops, cell, n, c);
    forall i | 0 <= i < |trees| ensures Is(unique, n + i, trees[i]) {
      assert Is(Laid(n, trees), n + i, trees[i]);
    }
    WiringExactly(ops, cell, n, c, f, unique);
    forall sigma: map<Wire, Tree>, g: Tree | Is(sigma, cell, Tupled(c, g)) && Holds(Wiring(ops, cell, n), sigma)
      ensures g == f && Agrees(sigma, n, trees)
    {
      WiringExactly(ops, cell, n, c, g, sigma);
    }
  }

  predicate ReadsAgree(ws: seq<Wire>, ts: seq<Tree>, sigma: map<Wire, Tree>) {
    |ws| == |ts| && forall i :: 0 <= i < |ws| ==> Is(sigma, ws[i], ts[i])
  }

  lemma {:induction false} SolutionReads(ops: seq<Op>, n: Wire, c: Tree, f: Tree, sigma: map<Wire, Tree>)
    requires Agrees(sigma, n, Solution(ops, c, f))
    ensures ReadsAgree(ReadWires(ops, n), ReadValues(ops, c), sigma)
    decreases ops
  {
    hide Agrees, Solution, Final, ReadsAgree;
    if ops == [] {
      NoReads(sigma);
    } else {
      var rest := ops[1..];
      SolutionTail(ops, n, c, f, sigma);
      match ops[0]
      case Write(v) => SolutionReads(rest, n + 12, Data(v), f, sigma);
      case Read =>
        SolutionReads(rest, n + 10, c, f, sigma);
        JoinReads([n + 8], ReadWires(rest, n + 10), [c], ReadValues(rest, c), sigma);
      case Lend(borrower) =>
        var m, d := n + 15 + WireCount(borrower), Final(borrower, c);
        SolutionReads(borrower, n + 15, c, d, sigma);
        SolutionReads(rest, m, d, f, sigma);
        JoinReads(ReadWires(borrower, n + 15), ReadWires(rest, m), ReadValues(borrower, c), ReadValues(rest, d), sigma);
    }
  }

  lemma SolutionTail(ops: seq<Op>, n: Wire, c: Tree, f: Tree, sigma: map<Wire, Tree>)
    requires ops != [] && Agrees(sigma, n, Solution(ops, c, f))
    ensures ops[0].Write? ==> Agrees(sigma, n + 12, Solution(ops[1..], Data(ops[0].value), f))
    ensures ops[0].Read? ==> Is(sigma, n + 8, c) && Agrees(sigma, n + 10, Solution(ops[1..], c, f))
    ensures ops[0].Lend? ==> Agrees(sigma, n + 15, Solution(ops[0].borrower, c, Final(ops[0].borrower, c)))
    ensures ops[0].Lend? ==>
              Agrees(sigma, n + 15 + WireCount(ops[0].borrower), Solution(ops[1..], Final(ops[0].borrower, c), f))
  {
    hide Agrees, Final;
    match ops[0]
    case Write(v) => AgreesBoth(sigma, n, WriteSolution(Data(v), c, f), Solution(ops[1..], Data(v), f));
    case Read =>
      AgreesBoth(sigma, n, ReadSolution(c, f), Solution(ops[1..], c, f));
      NewCell(sigma, n, ReadSolution(c, f), 8);
    case Lend(borrower) => LendAgrees(borrower, ops[1..], n, c, f, sigma);
  }

  lemma NoReads(sigma: map<Wire, Tree>)
    ensures ReadsAgree([], [], sigma)
  {
  }

  lemma JoinReads(ws: seq<Wire>, ws': seq<Wire>, ts: seq<Tree>, ts': seq<Tree>, sigma: map<Wire, Tree>)
    requires ReadsAgree(ws, ts, sigma) && ReadsAgree(ws', ts', sigma)
    ensures ReadsAgree(ws + ws', ts + ts', sigma)
  {
  }

  /** Reads are prophecies that come true: in every solution each read sees the
      value the borrow semantics gives it, even one issued before the borrower's
      last write. */
  lemma ReadsAreSound(ops: seq<Op>, cell: Wire, n: Wire, c: Tree, g: Tree, sigma: map<Wire, Tree>)
    requires Is(sigma, cell, Tupled(c, g)) && Holds(Wiring(ops, cell, n), sigma)
    ensures ReadsAgree(ReadWires(ops, n), ReadValues(ops, c), sigma)
  {
    WiringExactly(ops, cell, n, c, g, sigma);
    SolutionReads(ops, n, c, g, sigma);
  }

  /** What a borrower gives back is its last write, or the value lent. */
  lemma {:induction false} FinalIsLastWrite(ops: seq<Op>, c: Tree)
    ensures Final(ops, c) == if LastWrite(ops).Some? then Data(LastWrite(ops).value) else c
    decreases ops
  {
    if ops != [] {
      match ops[0]
      case Write(v) => FinalIsLastWrite(ops[1..], Data(v));
      case Read => FinalIsLastWrite(ops[1..], c);
      case Lend(borrower) =>
        FinalIsLastWrite(borrower, c);
        FinalIsLastWrite(ops[1..], Final(borrower, c));
    }
  }

  /** A lender's read after a loan, in any solution of the wiring. */
  lemma ReadAfterLoan(borrower: seq<Op>, rest: seq<Op>, cell: Wire, n: Wire, c: Tree, g: Tree, sigma: map<Wire, Tree>)
    requires Is(sigma, cell, Tupled(c, g))
    requires Holds(Wiring([Lend(borrower), Read] + rest, cell, n), sigma)
    ensures Is(sigma, n + 15 + WireCount(borrower) + 8,
               if LastWrite(borrower).Some? then Data(LastWrite(borrower).value) else c)
  {
    var ops := [Lend(borrower), Read] + rest;
    var m, d := n + 15 + WireCount(borrower), Final(borrower, c);
    assert ops[1..] == [Read] + rest && ([Read] + rest)[1..] == rest;
    WiringExactly(ops, cell, n, c, g, sigma);
    LendAgrees(borrower, [Read] + rest, n, c, g, sigma);
    AgreesBoth(sigma, m, ReadSolution(d, g), Solution(rest, d, g));
    NewCell(sigma, m, ReadSolution(d, g), 8);
    FinalIsLastWrite(borrower, c);
  }
}
