/** Par adapters of value leaves: send_value of src/natsune/backend/registers.py
    between one Python value and a bundle of concurrent elements. */
module Pars {
  import opened Options

  datatype Adapter = ValueLeaf | Par(items: seq<Adapter>)

  // Iterating an atom raises; any other iterable can be unrolled like a tuple.
  datatype PyValue = Atom(id: int) | Tup(items: seq<PyValue>) | Iterable(items: seq<PyValue>)

  // What arrives on a value wire: a value, or an erasure left by an exception.
  datatype Datum = Has(value: PyValue) | Lost

  datatype Bundle = Leaf(datum: Datum) | Node(parts: seq<Bundle>)

  predicate Shaped(a: Adapter, b: Bundle)
    decreases a
  {
    match a
    case ValueLeaf => b.Leaf?
    case Par(items) => b.Node? && AllShaped(items, b.parts)
  }

  predicate AllShaped(items: seq<Adapter>, parts: seq<Bundle>)
    decreases items
  {
    |items| == |parts| && (items != [] ==> Shaped(items[0], parts[0]) && AllShaped(items[1..], parts[1..]))
  }

  // Every Par has an element.
  predicate NoEmptyPar(a: Adapter)
    decreases a
  {
    a.Par? ==> a.items != [] && forall i :: 0 <= i < |a.items| ==> NoEmptyPar(a.items[i])
  }

  predicate NoneEmpty(items: seq<Adapter>) {
    forall i :: 0 <= i < |items| ==> NoEmptyPar(items[i])
  }

  /* ---- parallelize_value and serialize_values ---- */

  // One `next` on what is left: the element and the iterator afterwards.
  function Next(d: Datum): (Datum, Datum) {
    if d.Has? && !d.value.Atom? && d.value.items != [] then (Has(d.value.items[0]), Has(Iterable(d.value.items[1..])))
    else (Lost, Lost)
  }

  // iter, then next once for each element: too short a value loses the rest.
  function Unrolled(d: Datum, count: nat): (r: seq<Datum>)
    ensures |r| == count
    decreases count
  {
    if count == 0 then [] else [Next(d).0] + Unrolled(Next(d).1, count - 1)
  }

  // The accumulator is merged with one element after the other.
  function Joined(ds: seq<Datum>): (r: Datum)
    ensures r.Has? ==> r.value.Tup? && |r.value.items| == |ds|
  {
    if ds == [] then Has(Tup([]))
    else
      var acc, last := Joined(ds[..|ds| - 1]), ds[|ds| - 1];
      if acc.Has? && last.Has? then Has(Tup(acc.value.items + [last.value])) else Lost
  }

  method ParallelizeValue(d: Datum, count: nat) returns (result: seq<Datum>)
    ensures result == Unrolled(d, count)
  {
    result := [];
    var curIter := d;
    var i := 0;
    while i < count
      invariant 0 <= i <= count
      invariant Unrolled(d, count) == result + Unrolled(curIter, count - i)
    {
      var (nextValue, rest) := Next(curIter);
      result := result + [nextValue];
      curIter := rest;
      i := i + 1;
    }
  }

  // The chain of serialize_values, on elements that may be lost.
  method JoinElements(ds: seq<Datum>) returns (acc: Datum)
    ensures acc == Joined(ds)
  {
    acc := Has(Tup([]));
    var i := 0;
    while i < |ds|
      invariant 0 <= i <= |ds|
      invariant acc == Joined(ds[..i])
    {
      assert ds[..i + 1][..i] == ds[..i];
      acc := if acc.Has? && ds[i].Has? then Has(Tup(acc.value.items + [ds[i].value])) else Lost;
      i := i + 1;
    }
    assert ds[..i] == ds;
  }

  /* ---- send_value; None is its SyntaxError ---- */

  // A Par of one element takes the value as it is.
  function FromValue(a: Adapter, d: Datum): Option<Bundle>
    decreases a
  {
    match a
    case ValueLeaf => Some(Leaf(d))
    case Par(items) =>
      if items == [] then None
      else
        var parts := FromValues(items, if |items| == 1 then [d] else Unrolled(d, |items|));
        if parts.Some? then Some(Node(parts.value)) else None
  }

  function FromValues(items: seq<Adapter>, ds: seq<Datum>): Option<seq<Bundle>>
    requires |items| == |ds|
    decreases items
  {
    if items == [] then Some([])
    else
      var first, rest := FromValue(items[0], ds[0]), FromValues(items[1..], ds[1..]);
      if first.Some? && rest.Some? then Some([first.value] + rest.value) else None
  }

  function ToValue(a: Adapter, b: Bundle): Option<Datum>
    requires Shaped(a, b)
    decreases a
  {
    match a
    case ValueLeaf => Some(b.datum)
    case Par(items) =>
      if items == [] then None
      else
        var ds := ToValues(items, b.parts);
        if ds.None? then None else Some(if |items| == 1 then ds.value[0] else Joined(ds.value))
  }

  function ToValues(items: seq<Adapter>, parts: seq<Bundle>): (r: Option<seq<Datum>>)
    requires AllShaped(items, parts)
    ensures r.Some? ==> |r.value| == |items|
    decreases items
  {
    if items == [] then Some([])
    else
      var first, rest := ToValue(items[0], parts[0]), ToValues(items[1..], parts[1..]);
      if first.Some? && rest.Some? then Some([first.value] + rest.value) else None
  }

  /* ---- Both directions are defined, and keep the shape ---- */

  lemma {:induction false} FromValueShape(a: Adapter, d: Datum)
    ensures FromValue(a, d).Some? <==> NoEmptyPar(a)
    ensures FromValue(a, d).Some? ==> Shaped(a, FromValue(a, d).value)
    decreases a
  {
    if a.Par? && a.items != [] {
      FromValuesShape(a.items, if |a.items| == 1 then [d] else Unrolled(d, |a.items|));
    }
  }

  lemma {:induction false} FromValuesShape(items: seq<Adapter>, ds: seq<Datum>)
    requires |items| == |ds|
    ensures FromValues(items, ds).Some? <==> NoneEmpty(items)
    ensures FromValues(items, ds).Some? ==> AllShaped(items, FromValues(items, ds).value)
    decreases items
  {
    if items != [] {
      FromValueShape(items[0], ds[0]);
      FromValuesShape(items[1..], ds[1..]);
      assert NoneEmpty(items) <==> NoEmptyPar(items[0]) && NoneEmpty(items[1..]) by {
        assert forall i :: 0 < i < |items| ==> items[i] == items[1..][i - 1];
      }
    }
  }

  lemma {:induction false} ToValueDefined(a: Adapter, b: Bundle)
    requires Shaped(a, b)
    ensures ToValue(a, b).Some? <==> NoEmptyPar(a)
    decreases a
  {
    if a.Par? && a.items != [] {
      ToValuesDefined(a.items, b.parts);
    }
  }

  lemma {:induction false} ToValuesDefined(items: seq<Adapter>, parts: seq<Bundle>)
    requires AllShaped(items, parts)
    ensures ToValues(items, parts).Some? <==> NoneEmpty(items)
    decreases items
  {
    if items != [] {
      ToValueDefined(items[0], parts[0]);
      ToValuesDefined(items[1..], parts[1..]);
      assert NoneEmpty(items) <==> NoEmptyPar(items[0]) && NoneEmpty(items[1..]) by {
        assert forall i :: 0 < i < |items| ==> items[i] == items[1..][i - 1];
      }
    }
  }

  /* ---- Element by element ---- */

  lemma {:induction false} FromValuesAt(items: seq<Adapter>, ds: seq<Datum>, i: nat)
    requires |items| == |ds| && i < |items| && FromValues(items, ds).Some?
    ensures i < |FromValues(items, ds).value| && FromValue(items[i], ds[i]) == Some(FromValues(items, ds).value[i])
    decreases items
  {
    if i > 0 {
      FromValuesAt(items[1..], ds[1..], i - 1);
    }
  }

  lemma {:induction false} ToValuesAt(items: seq<Adapter>, parts: seq<Bundle>, i: nat)
    requires AllShaped(items, parts) && i < |items| && ToValues(items, parts).Some?
    ensures Shaped(items[i], parts[i]) && ToValue(items[i], parts[i]) == Some(ToValues(items, parts).value[i])
    decreases items
  {
    if i > 0 {
      ToValuesAt(items[1..], parts[1..], i - 1);
    }
  }

  /** Part i of what a Par takes from a value is what its item i takes from element i,
      and from nothing where the value has no such element. */
  lemma PartsInOrder(a: Adapter, d: Datum, i: nat)
    requires a.Par? && |a.items| > 1 && i < |a.items| && FromValue(a, d).Some?
    ensures var element := if d.Has? && !d.value.Atom? && i < |d.value.items| then Has(d.value.items[i]) else Lost;
            var b := FromValue(a, d).value;
            b.Node? && i < |b.parts| && FromValue(a.items[i], element) == Some(b.parts[i])
  {
    FromValuesAt(a.items, Unrolled(d, |a.items|), i);
    UnrolledAt(d, |a.items|, i);
  }

  /** Element i of the tuple made from a bundle is what item i makes of part i; there
      is a tuple exactly when every part makes something. */
  lemma ElementsInOrder(a: Adapter, b: Bundle)
    requires a.Par? && |a.items| > 1 && Shaped(a, b) && ToValue(a, b).Some?
    ensures var d := ToValue(a, b).value;
            && |b.parts| == |a.items|
            && (d.Lost? <==> exists i :: 0 <= i < |a.items| && Shaped(a.items[i], b.parts[i])
                                         && ToValue(a.items[i], b.parts[i]) == Some(Lost))
            && (d.Has? ==> d.value.Tup? && |d.value.items| == |a.items|
                           && forall i :: 0 <= i < |a.items| ==>
                                Shaped(a.items[i], b.parts[i])
                                && ToValue(a.items[i], b.parts[i]) == Some(Has(d.value.items[i])))
  {
    var ds := ToValues(a.items, b.parts).value;
    JoinedExactly(ds);
    forall i | 0 <= i < |a.items|
      ensures Shaped(a.items[i], b.parts[i]) && ToValue(a.items[i], b.parts[i]) == Some(ds[i])
    {
      ToValuesAt(a.items, b.parts, i);
    }
  }

  /* ---- Round trips ---- */

  lemma {:induction false} UnrolledAt(d: Datum, count: nat, i: nat)
    requires i < count
    ensures Unrolled(d, count)[i]
         == if d.Has? && !d.value.Atom? && i < |d.value.items| then Has(d.value.items[i]) else Lost
    decreases count
  {
    if i > 0 {
      UnrolledAt(Next(d).1, count - 1, i - 1);
    }
  }

  predicate AllHave(ds: seq<Datum>) {
    forall i :: 0 <= i < |ds| ==> ds[i].Has?
  }

  lemma {:induction false} JoinedExactly(ds: seq<Datum>)
    ensures Joined(ds).Has? <==> AllHave(ds)
    ensures Joined(ds).Has? ==> forall i :: 0 <= i < |ds| ==> ds[i] == Has(Joined(ds).value.items[i])
    decreases |ds|
  {
    if ds != [] {
      var front := ds[..|ds| - 1];
      JoinedExactly(front);
      assert forall i :: 0 <= i < |front| ==> ds[i] == front[i];
    }
  }

  // The tuples of v have the widths of the adapter, all the way down.
  predicate Fits(a: Adapter, v: PyValue)
    decreases a
  {
    match a
    case ValueLeaf => true
    case Par(items) =>
      if |items| == 1 then Fits(items[0], v)
      else v.Tup? && |v.items| == |items| && forall i :: 0 <= i < |items| ==> Fits(items[i], v.items[i])
  }

  predicate FitsOrLost(a: Adapter, d: Datum) {
    d.Has? ==> Fits(a, d.value)
  }

  predicate AllFitOrLost(items: seq<Adapter>, ds: seq<Datum>)
    requires |items| == |ds|
  {
    forall i :: 0 <= i < |items| ==> FitsOrLost(items[i], ds[i])
  }

  // To a bundle and back.
  function ThereAndBack(a: Adapter, d: Datum): Datum
    requires NoEmptyPar(a)
  {
    FromValueShape(a, d);
    var b := FromValue(a, d).value;
    ToValueDefined(a, b);
    ToValue(a, b).value
  }

  function AllThereAndBack(items: seq<Adapter>, ds: seq<Datum>): (r: seq<Datum>)
    requires |items| == |ds| && NoneEmpty(items)
    ensures |r| == |ds|
  {
    FromValuesShape(items, ds);
    var parts := FromValues(items, ds).value;
    ToValuesDefined(items, parts);
    ToValues(items, parts).value
  }

  lemma BackPar(a: Adapter, d: Datum)
    requires NoEmptyPar(a) && a.Par?
    ensures var ds := if |a.items| == 1 then [d] else Unrolled(d, |a.items|);
            var rs := AllThereAndBack(a.items, ds);
            ThereAndBack(a, d) == if |a.items| == 1 then rs[0] else Joined(rs)
  {
    var ds := if |a.items| == 1 then [d] else Unrolled(d, |a.items|);
    FromValueShape(a, d);
    FromValuesShape(a.items, ds);
    var parts := FromValues(a.items, ds).value;
    assert FromValue(a, d) == Some(Node(parts));
    ToValueDefined(a, Node(parts));
    ToValuesDefined(a.items, parts);
  }

  lemma BackFirst(items: seq<Adapter>, ds: seq<Datum>)
    requires |items| == |ds| > 0 && NoneEmpty(items)
    ensures AllThereAndBack(items, ds) == [ThereAndBack(items[0], ds[0])] + AllThereAndBack(items[1..], ds[1..])
  {
    FromValueShape(items[0], ds[0]);
    FromValuesShape(items[1..], ds[1..]);
    FromValuesShape(items, ds);
    var part, parts := FromValue(items[0], ds[0]).value, FromValues(items[1..], ds[1..]).value;
    var both := FromValues(items, ds).value;
    assert both == [part] + parts && both[1..] == parts;
    ToValueDefined(items[0], part);
    ToValuesDefined(items[1..], parts);
  }

  /** A value survives the trip to a bundle and back exactly when it is a tuple of
      the adapter's widths at every level, or was lost before. Anything else comes
      back as a tuple cut to the width, or is lost. */
  lemma {:induction false} ValueRoundTrip(a: Adapter, d: Datum)
    requires NoEmptyPar(a)
    ensures ThereAndBack(a, d) == d <==> FitsOrLost(a, d)
    decreases a
  {
    if a.Par? {
      var k := |a.items|;
      var ds := if k == 1 then [d] else Unrolled(d, k);
      var rs := AllThereAndBack(a.items, ds);
      BackPar(a, d);
      ValuesRoundTrip(a.items, ds);
      if k > 1 {
        ParRoundTrips(a, d, ds, rs);
      } else {
        assert rs == [rs[0]];
        assert AllFitOrLost(a.items, ds) <==> FitsOrLost(a.items[0], d);
      }
    }
  }

  lemma ParRoundTrips(a: Adapter, d: Datum, ds: seq<Datum>, rs: seq<Datum>)
    requires a.Par? && |a.items| > 1 && ds == Unrolled(d, |a.items|) && |rs| == |ds|
    requires rs == ds <==> AllFitOrLost(a.items, ds)
    ensures Joined(rs) == d <==> FitsOrLost(a, d)
  {
    var k := |a.items|;
    JoinedExactly(rs);
    forall i | 0 <= i < k
      ensures ds[i] == if d.Has? && !d.value.Atom? && i < |d.value.items| then Has(d.value.items[i]) else Lost
    {
      UnrolledAt(d, k, i);
    }
    if d.Lost? {
      assert AllFitOrLost(a.items, ds) && rs[0].Lost?;
    } else if d.value.Tup? && |d.value.items| == k {
      assert FitsOrLost(a, d) <==> AllFitOrLost(a.items, ds);
      if rs == ds {
        assert Joined(rs).value.items == d.value.items;
      }
      if Joined(rs) == d {
        assert rs == ds;
      }
    }
  }

  lemma {:induction false} ValuesRoundTrip(items: seq<Adapter>, ds: seq<Datum>)
    requires |items| == |ds| && NoneEmpty(items)
    ensures AllThereAndBack(items, ds) == ds <==> AllFitOrLost(items, ds)
    decreases items
  {
    if items != [] {
      var first, rest := ThereAndBack(items[0], ds[0]), AllThereAndBack(items[1..], ds[1..]);
      ValueRoundTrip(items[0], ds[0]);
      ValuesRoundTrip(items[1..], ds[1..]);
      BackFirst(items, ds);
      assert AllFitOrLost(items, ds) <==> FitsOrLost(items[0], ds[0]) && AllFitOrLost(items[1..], ds[1..]) by {
        assert forall i :: 0 < i < |items| ==> items[i] == items[1..][i - 1] && ds[i] == ds[1..][i - 1];
      }
      assert [first] + rest == ds <==> first == ds[0] && rest == ds[1..];
    }
  }

  // No part was lost.
  predicate Full(b: Bundle)
    decreases b
  {
    match b
    case Leaf(d) => d.Has?
    case Node(parts) => forall i :: 0 <= i < |parts| ==> Full(parts[i])
  }

  predicate AllFull(parts: seq<Bundle>) {
    forall i :: 0 <= i < |parts| ==> Full(parts[i])
  }

  // The bundle an erasure is split into.
  function Hollow(a: Adapter): Bundle
    requires NoEmptyPar(a)
  {
    FromValueShape(a, Lost);
    FromValue(a, Lost).value
  }

  lemma {:induction false} ToValueHas(a: Adapter, b: Bundle)
    requires Shaped(a, b) && NoEmptyPar(a)
    ensures ToValue(a, b).Some? && (ToValue(a, b).value.Has? <==> Full(b))
    decreases a
  {
    ToValueDefined(a, b);
    if a.Par? {
      ToValuesHave(a.items, b.parts);
      JoinedExactly(ToValues(a.items, b.parts).value);
    }
  }

  lemma {:induction false} ToValuesHave(items: seq<Adapter>, parts: seq<Bundle>)
    requires AllShaped(items, parts) && NoneEmpty(items)
    ensures ToValues(items, parts).Some?
    ensures AllHave(ToValues(items, parts).value) <==> AllFull(parts)
    decreases items
  {
    if items != [] {
      ToValueHas(items[0], parts[0]);
      ToValuesHave(items[1..], parts[1..]);
      var first, rest := ToValue(items[0], parts[0]).value, ToValues(items[1..], parts[1..]).value;
      assert ToValues(items, parts).value == [first] + rest;
      assert AllFull(parts) <==> Full(parts[0]) && AllFull(parts[1..]) by {
        assert forall i :: 0 < i < |parts| ==> parts[i] == parts[1..][i - 1];
      }
      assert AllHave([first] + rest) <==> first.Has? && AllHave(rest) by {
        assert forall i :: 0 < i < |items| ==> ([first] + rest)[i] == rest[i - 1];
        assert ([first] + rest)[0] == first;
        assert forall i :: 0 <= i < |rest| ==> rest[i] == ([first] + rest)[i + 1];
      }
    }
  }

  /** A bundle survives the trip to a value and back exactly when none of its parts
      was lost, or all were. */
  lemma {:induction false} BundleRoundTrip(a: Adapter, b: Bundle)
    requires Shaped(a, b) && NoEmptyPar(a)
    ensures ToValue(a, b).Some?
    ensures FromValue(a, ToValue(a, b).value) == Some(b) <==> Full(b) || b == Hollow(a)
    decreases a
  {
    ToValueHas(a, b);
    var d := ToValue(a, b).value;
    FromValueShape(a, d);
    if Full(b) {
      if a.Par? {
        FullRoundTrips(a.items, b.parts);
        var ds := ToValues(a.items, b.parts).value;
        if |a.items| == 1 {
          assert ds == [d];
        } else {
          JoinedUnrolls(ds);
        }
      }
    }
  }

  lemma JoinedUnrolls(ds: seq<Datum>)
    requires Joined(ds).Has?
    ensures Unrolled(Joined(ds), |ds|) == ds
  {
    JoinedExactly(ds);
    forall i | 0 <= i < |ds| ensures Unrolled(Joined(ds), |ds|)[i] == ds[i] {
      UnrolledAt(Joined(ds), |ds|, i);
    }
  }

  lemma {:induction false} FullRoundTrips(items: seq<Adapter>, parts: seq<Bundle>)
    requires AllShaped(items, parts) && NoneEmpty(items) && AllFull(parts)
    ensures ToValues(items, parts).Some? && FromValues(items, ToValues(items, parts).value) == Some(parts)
    decreases items
  {
    if items != [] {
      BundleRoundTrip(items[0], parts[0]);
      FullRoundTrips(items[1..], parts[1..]);
      var first, rest := ToValue(items[0], parts[0]).value, ToValues(items[1..], parts[1..]).value;
      assert ToValues(items, parts) == Some([first] + rest);
      assert ([first] + rest)[0] == first && ([first] + rest)[1..] == rest;
      assert [parts[0]] + parts[1..] == parts;
    }
  }
}
