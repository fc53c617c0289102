/** The bit operations of src/natsune/deque.py on unbounded integers. */
module Bits {
  function Pow2(k: nat): (r: nat)
    ensures r >= 1
  {
    if k == 0 then 1 else 2 * Pow2(k - 1)
  }

  // `a | b`
  function Or(a: nat, b: nat): nat
    decreases a + b
  {
    if a == 0 && b == 0 then 0
    else 2 * Or(a / 2, b / 2) + if a % 2 == 1 || b % 2 == 1 then 1 else 0
  }

  // `a & b`
  function And(a: nat, b: nat): nat
    decreases a + b
  {
    if a == 0 && b == 0 then 0
    else 2 * And(a / 2, b / 2) + if a % 2 == 1 && b % 2 == 1 then 1 else 0
  }

  // `a >> i`
  function Shr(a: nat, i: nat): nat {
    if i == 0 then a else Shr(a / 2, i - 1)
  }

  lemma {:induction false} Pow2Add(i: nat, j: nat)
    ensures Pow2(i + j) == Pow2(i) * Pow2(j)
  {
    if i > 0 {
      Pow2Add(i - 1, j);
      calc {
        Pow2(i + j);
        2 * Pow2(i - 1 + j);
        2 * (Pow2(i - 1) * Pow2(j));
        Pow2(i) * Pow2(j);
      }
    }
  }

  lemma {:induction false} Pow2Monotone(i: nat, j: nat)
    requires i <= j
    ensures Pow2(i) <= Pow2(j)
    decreases j - i
  {
    if i < j {
      Pow2Monotone(i + 1, j);
    }
  }

  /* Masking with 2^k - 1 is reduction modulo 2^k. */
  lemma {:induction false} MaskIsModulo(a: nat, k: nat)
    ensures And(a, Pow2(k) - 1) == a % Pow2(k)
    decreases k
  {
    hide And;
    if k == 0 {
      AndZero(a);
    } else {
      MaskIsModulo(a / 2, k - 1);
      MaskStep(a, Pow2(k - 1));
    }
  }

  lemma MaskStep(a: nat, h: nat)
    requires h >= 1 && And(a / 2, h - 1) == (a / 2) % h
    ensures And(a, 2 * h - 1) == a % (2 * h)
  {
    hide And;
    HalveModulo(a, h);
    AndOdd(a, h - 1);
  }

  lemma AndOdd(a: nat, b: nat)
    ensures And(a, 2 * b + 1) == 2 * And(a / 2, b) + a % 2
  {
    assert (2 * b + 1) / 2 == b && (2 * b + 1) % 2 == 1;
  }

  lemma {:induction false} AndZero(a: nat)
    ensures And(a, 0) == 0
    decreases a
  {
    if a > 0 {
      AndZero(a / 2);
    }
  }

  lemma HalveModulo(a: nat, h: nat)
    requires h >= 1
    ensures a % (2 * h) == 2 * ((a / 2) % h) + a % 2
  {
    var q, r := (a / 2) / h, (a / 2) % h;
    assert a / 2 == q * h + r;
    assert a == 2 * (q * h + r) + a % 2;
    assert a == q * (2 * h) + (2 * r + a % 2) by {
      assert 2 * (q * h) == q * (2 * h);
    }
    ModuloUnique(a, 2 * h, q, 2 * r + a % 2);
  }

  lemma ModuloUnique(a: nat, m: nat, q: nat, r: nat)
    requires m >= 1 && a == q * m + r && r < m
    ensures a % m == r
  {
    var q', r' := a / m, a % m;
    var d := q - q';
    assert d * m == r' - r by {
      assert d * m == q * m - q' * m;
    }
    if d >= 1 {
      AtLeastOnce(d, m);
    } else if d <= -1 {
      AtLeastOnce(-d, m);
    }
  }

  lemma AtLeastOnce(d: int, m: int)
    requires d >= 1 && m >= 0
    ensures d * m >= m && (-d) * m <= -m
  {
    assert d * m == (d - 1) * m + m;
  }

  /* ---- Smearing: x |= x >> 1; x |= x >> 2; ... ---- */

  // The number of binary digits.
  function Width(x: nat): nat {
    if x == 0 then 0 else 1 + Width(x / 2)
  }

  lemma {:induction false} WidthBounds(x: nat)
    ensures x < Pow2(Width(x))
    ensures x > 0 ==> Pow2(Width(x) - 1) <= x
  {
    if x > 0 {
      WidthBounds(x / 2);
    }
  }

  lemma {:induction false} WidthAtMost(x: nat, k: nat)
    requires x < Pow2(k)
    ensures Width(x) <= k
    decreases k
  {
    if x > 0 {
      WidthAtMost(x / 2, k - 1);
    }
  }

  // The top j of x's w digits are all ones.
  predicate TopOnes(x: nat, w: nat, j: nat)
    decreases w
  {
    if w <= j then x == Pow2(w) - 1 else TopOnes(x / 2, w - 1, j)
  }

  lemma {:induction false} OrOnes(x: nat, y: nat, w: nat)
    requires x == Pow2(w) - 1 && y < Pow2(w)
    ensures Or(x, y) == x
    decreases w
  {
    if w > 0 {
      var h := Pow2(w - 1);
      assert x / 2 == h - 1 && x % 2 == 1;
      OrOnes(x / 2, y / 2, w - 1);
    } else {
      assert x == 0 && y == 0;
    }
  }

  lemma {:induction false} ShrBound(x: nat, w: nat, i: nat)
    requires x < Pow2(w)
    ensures Shr(x, i) < Pow2(if i <= w then w - i else 0)
    decreases i
  {
    if i > 0 {
      if w == 0 {
        ShrBound(x / 2, 0, i - 1);
      } else {
        ShrBound(x / 2, w - 1, i - 1);
      }
    }
  }

  lemma {:induction false} ShrHalf(x: nat, i: nat)
    ensures Shr(x, i) / 2 == Shr(x / 2, i)
    decreases i
  {
    if i > 0 {
      ShrHalf(x / 2, i - 1);
    }
  }

  // Shifting all of x's leading ones down by i leaves ones below the top i.
  lemma {:induction false} SmearStep(x: nat, w: nat, j: nat)
    requires j >= 1 && x < Pow2(w) && TopOnes(x, w, j)
    ensures TopOnes(Or(x, Shr(x, j)), w, 2 * j)
    ensures Or(x, Shr(x, j)) < Pow2(w)
    decreases w
  {
    var y := Shr(x, j);
    if w <= j {
      ShrBound(x, w, j);
      OrOnes(x, y, w);
    } else {
      ShrHalf(x, j);
      SmearStep(x / 2, w - 1, j);
      HalveOr(x, y);
      var z := Or(x, y);
      assert z / 2 == Or(x / 2, Shr(x / 2, j));
      if w <= 2 * j {
        // All digits of z are ones: its last one is a leading one shifted down.
        ShrOdd(x, w, j);
        assert z % 2 == 1;
        assert z / 2 == Pow2(w - 1) - 1;
      }
    }
  }

  lemma HalveOr(x: nat, y: nat)
    ensures Or(x, y) / 2 == Or(x / 2, y / 2)
    ensures Or(x, y) % 2 == if x % 2 == 1 || y % 2 == 1 then 1 else 0
  {
  }

  // Digit j of x is among its top j digits when w <= 2j.
  lemma {:induction false} ShrOdd(x: nat, w: nat, j: nat)
    requires TopOnes(x, w, j) && j < w <= 2 * j
    ensures Shr(x, j) % 2 == 1
  {
    ShrTop(x, w, j, j);
  }

  lemma {:induction false} ShrTop(x: nat, w: nat, j: nat, i: nat)
    requires TopOnes(x, w, j) && w - j <= i < w
    ensures Shr(x, i) % 2 == 1
    decreases i
  {
    if i == 0 {
      assert w <= j;
      assert Pow2(w) == 2 * Pow2(w - 1);
    } else if w <= j {
      assert Pow2(w) == 2 * Pow2(w - 1);
      assert x / 2 == Pow2(w - 1) - 1;
      TopAllOnes(x / 2, w - 1, j);
      ShrTop(x / 2, w - 1, j, i - 1);
    } else {
      ShrTop(x / 2, w - 1, j, i - 1);
    }
  }

  lemma TopAllOnes(x: nat, w: nat, j: nat)
    requires w <= j && x == Pow2(w) - 1
    ensures TopOnes(x, w, j)
  {
  }

  lemma {:induction false} TopOne(x: nat)
    requires x > 0
    ensures TopOnes(x, Width(x), 1)
  {
    if x / 2 > 0 {
      TopOne(x / 2);
    } else {
      assert x == 1 && Width(x) == 1;
    }
  }

  /* Smearing over the shifts 1, 2, 4, 8, 16, 32. */
  function Smeared(x: nat, i: nat): nat
    requires i >= 1
    decreases 64 - i
  {
    if i > 32 then x else Smeared(Or(x, Shr(x, i)), 2 * i)
  }

  lemma {:induction false} SmearedOnes(x: nat, w: nat, i: nat)
    requires i >= 1 && x < Pow2(w) && TopOnes(x, w, i) && w <= 64
    requires i in {1, 2, 4, 8, 16, 32, 64}
    ensures Smeared(x, i) == Pow2(w) - 1
    decreases 64 - i
  {
    if i <= 32 {
      SmearStep(x, w, i);
      SmearedOnes(Or(x, Shr(x, i)), w, 2 * i);
    }
  }

  /** For every hint from 1 to 2^64, smearing hint - 1 and adding one gives the
      least power of two that is not below the hint. */
  lemma SmearRoundsUp(hint: nat)
    requires 1 <= hint <= Pow2(64)
    ensures var k := Width(hint - 1);
            && Smeared(hint - 1, 1) + 1 == Pow2(k)
            && hint <= Pow2(k)
            && forall j: nat :: hint <= Pow2(j) ==> Pow2(k) <= Pow2(j)
  {
    var x := hint - 1;
    var k := Width(x);
    WidthBounds(x);
    WidthAtMost(x, 64);
    if x == 0 {
      assert Smeared(0, 1) == 0 by { SmearedZero(1); }
    } else {
      TopOne(x);
      SmearedOnes(x, k, 1);
    }
    forall j: nat | hint <= Pow2(j) ensures Pow2(k) <= Pow2(j) {
      WidthAtMost(x, j);
      Pow2Monotone(k, j);
    }
  }

  lemma {:induction false} SmearedZero(i: nat)
    requires i >= 1
    ensures Smeared(0, i) == 0
    decreases 64 - i
  {
    if i <= 32 {
      ShrBound(0, 0, i);
      SmearedZero(2 * i);
    }
  }

  lemma {:induction false} OrNotLess(x: nat, y: nat)
    ensures Or(x, y) >= x
    decreases x + y
  {
    if x > 0 || y > 0 {
      OrNotLess(x / 2, y / 2);
    }
  }

  lemma {:induction false} SmearedNotLess(x: nat, i: nat)
    requires i >= 1
    ensures Smeared(x, i) >= x
    decreases 64 - i
  {
    if i <= 32 {
      OrNotLess(x, Shr(x, i));
      SmearedNotLess(Or(x, Shr(x, i)), 2 * i);
    }
  }

  // Hints past 2^64 may smear badly, but never below themselves: a capacity stays
  // below 2^(k + 1) exactly for the hints up to 2^k.
  lemma SmearStaysBelow(hint: nat, k: nat)
    requires hint >= 1 && k < 64
    ensures Smeared(hint - 1, 1) + 1 < Pow2(k + 1) <==> hint <= Pow2(k)
  {
    hide Pow2, Smeared, Width;
    SmearedNotLess(hint - 1, 1);
    Pow2Next(k);
    Pow2Monotone(k + 1, 64);
    if hint <= Pow2(64) {
      SmearRoundsUp(hint);
      var w := Width(hint - 1);
      if w > k {
        Pow2Monotone(k + 1, w);
      } else {
        Pow2Monotone(w, k);
      }
    }
  }

  lemma Pow2Next(k: nat)
    ensures Pow2(k + 1) == 2 * Pow2(k)
  {
  }
}
