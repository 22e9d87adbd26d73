/** Single bits and bitwise or on naturals. */
module Bits {
  import opened Net

  predicate HasBit(b: nat, i: nat) {
    if i == 0 then b % 2 == 1 else HasBit(b / 2, i - 1)
  }

  function SetBit(b: nat, i: nat): nat {
    if i == 0 then b - b % 2 + 1 else 2 * SetBit(b / 2, i - 1) + b % 2
  }

  lemma {:induction false} SetBitExact(b: nat, i: nat, j: nat)
    ensures HasBit(SetBit(b, i), j) <==> i == j || HasBit(b, j)
  {
    if i > 0 && j > 0 { SetBitExact(b / 2, i - 1, j - 1); }
  }

  lemma {:induction false} SetBitFits(b: nat, i: nat, k: nat)
    requires b < Pow2(k) && i < k
    ensures SetBit(b, i) < Pow2(k)
  {
    var half := Pow2(k - 1);
    assert Pow2(k) == 2 * half && b / 2 < half && b == 2 * (b / 2) + b % 2;
    if i > 0 { SetBitFits(b / 2, i - 1, k - 1); }
  }

  lemma {:induction false} SetBitAdds(b: nat, i: nat)
    requires !HasBit(b, i)
    ensures SetBit(b, i) == b + Pow2(i)
  {
    if i > 0 { SetBitAdds(b / 2, i - 1); }
  }

  lemma {:induction false} ZeroHasNoBit(i: nat)
    ensures !HasBit(0, i)
  {
    if i > 0 { ZeroHasNoBit(i - 1); }
  }

  function Or(a: nat, b: nat): nat {
    if a == 0 then b else if b == 0 then a
    else 2 * Or(a / 2, b / 2) + if a % 2 == 1 || b % 2 == 1 then 1 else 0
  }

  lemma {:induction false} OrExact(a: nat, b: nat, i: nat)
    ensures HasBit(Or(a, b), i) <==> HasBit(a, i) || HasBit(b, i)
  {
    ZeroHasNoBit(i);
    if i > 0 && a > 0 && b > 0 { OrExact(a / 2, b / 2, i - 1); }
  }

  /** A value below a power of two, or-ed into one whose low bits are clear, is added. */
  lemma {:induction false} OrAdds(a: nat, b: nat, h: nat)
    requires a % Pow2(h) == 0 && b < Pow2(h)
    ensures Or(a, b) == a + b
  {
    if a > 0 && b > 0 {
      HalfMultiple(a, h);
      OrAdds(a / 2, b / 2, h - 1);
    }
  }

  lemma HalfMultiple(a: nat, h: nat)
    requires h > 0 && a % Pow2(h) == 0
    ensures a % 2 == 0 && a / 2 % Pow2(h - 1) == 0
  {
    var p, q := Pow2(h - 1), a / Pow2(h);
    assert a == q * (2 * p) == 2 * (q * p);
    assert a / 2 == q * p;
    MultipleModulo(q, p);
  }

  lemma MultipleModulo(q: nat, p: nat)
    requires p > 0
    ensures q * p % p == 0
  {
    var d, r := q * p / p, q * p % p;
    assert q * p == d * p + r;
    if d < q { MulMonotone(d + 1, q, p); }
    if q < d { MulMonotone(q + 1, d, p); }
  }

  /** A bit already set in one operand hides it in the other. */
  lemma {:induction false} OrHides(a: nat, b: nat, k: nat)
    requires HasBit(a, k)
    ensures Or(a, SetBit(b, k)) == Or(a, b)
  {
    if a == 0 {
      ZeroHasNoBit(k);
    } else if k > 0 {
      OrHides(a / 2, b / 2, k - 1);
    } else if b > 0 {
      assert (b - b % 2 + 1) / 2 == b / 2;
    }
  }

  lemma {:induction false} LowBitSet(a: nat, h: nat) returns (k: nat)
    requires a % Pow2(h) != 0
    ensures k < h && HasBit(a, k)
  {
    if a % 2 == 1 {
      k := 0;
      assert h > 0;
    } else {
      DoubleMultiple(a, h);
      k := LowBitSet(a / 2, h - 1);
      k := k + 1;
    }
  }

  lemma DoubleMultiple(a: nat, h: nat)
    requires a % 2 == 0 && a % Pow2(h) != 0
    ensures h > 0 && a / 2 % Pow2(h - 1) != 0
  {
    assert h > 0;
    var p := Pow2(h - 1);
    var q := a / 2 / p;
    assert a / 2 == q * p + a / 2 % p;
    assert a == q * (2 * p) + 2 * (a / 2 % p);
    MultipleModulo(q, 2 * p);
  }

  lemma {:induction false} OrFits(a: nat, b: nat, k: nat)
    requires a < Pow2(k) && b < Pow2(k)
    ensures Or(a, b) < Pow2(k)
  {
    if a > 0 && b > 0 {
      assert Pow2(k) == 2 * Pow2(k - 1);
      OrFits(a / 2, b / 2, k - 1);
    }
  }

  function Shift(a: nat, h: nat): nat {
    if h == 0 then a else Shift(a / 2, h - 1)
  }

  lemma {:induction false} ShiftDivides(a: nat, h: nat)
    ensures Shift(a, h) == a / Pow2(h)
  {
    if h > 0 {
      ShiftDivides(a / 2, h - 1);
      HalvedDivides(a, Pow2(h - 1));
    }
  }

  lemma HalvedDivides(a: nat, p: nat)
    requires p > 0
    ensures a / (2 * p) == a / 2 / p
  {
    var q := a / 2 / p;
    assert a / 2 == q * p + a / 2 % p;
    assert a == q * (2 * p) + (2 * (a / 2 % p) + a % 2);
    QuotientUnique(a, 2 * p, q, 2 * (a / 2 % p) + a % 2);
  }

  lemma QuotientUnique(a: nat, p: nat, q: nat, r: nat)
    requires p > 0 && a == q * p + r && r < p
    ensures a / p == q
  {
    var d := a / p;
    assert a == d * p + a % p;
    if d < q { MulMonotone(d + 1, q, p); }
    if q < d { MulMonotone(q + 1, d, p); }
  }

  /** Shifting right commutes with or. */
  lemma {:induction false} ShiftOr(a: nat, b: nat, h: nat)
    ensures Shift(Or(a, b), h) == Or(Shift(a, h), Shift(b, h))
  {
    if h > 0 {
      assert Or(a, b) / 2 == Or(a / 2, b / 2);
      ShiftOr(a / 2, b / 2, h - 1);
    }
  }

  lemma {:induction false} ShiftBit(a: nat, h: nat, k: nat)
    ensures HasBit(Shift(a, h), k) == HasBit(a, k + h)
  {
    if h > 0 { ShiftBit(a / 2, h - 1, k); }
  }

  ghost predicate BitsIn(b: nat, a: nat) {
    forall k: nat :: HasBit(b, k) ==> HasBit(a, k)
  }

  /** Or-ing in bits changes nothing exactly when they are all there. */
  lemma OrAbsorbsExact(a: nat, b: nat)
    ensures Or(a, b) == a <==> BitsIn(b, a)
  {
    if Or(a, b) == a {
      forall k: nat | HasBit(b, k) ensures HasBit(a, k) { OrExact(a, b, k); }
    }
    if BitsIn(b, a) { OrAbsorbs(a, b); }
  }

  lemma {:induction false} OrAbsorbs(a: nat, b: nat)
    requires BitsIn(b, a)
    ensures Or(a, b) == a
    decreases b
  {
    if b > 0 {
      var bit := SomeBit(b);
      assert HasBit(a, bit);
      ZeroHasNoBit(bit);
      forall k: nat | HasBit(b / 2, k) ensures HasBit(a / 2, k) {
        assert HasBit(b, k + 1);
      }
      OrAbsorbs(a / 2, b / 2);
      assert HasBit(b, 0) ==> HasBit(a, 0);
    }
  }

  lemma {:induction false} SomeBit(b: nat) returns (k: nat)
    requires b > 0
    ensures HasBit(b, k)
  {
    if b % 2 == 1 {
      k := 0;
    } else {
      k := SomeBit(b / 2);
      k := k + 1;
    }
  }

  lemma {:induction false} BitsBelow(b: nat, h: nat, k: nat)
    requires b < Pow2(h) && HasBit(b, k)
    ensures k < h
  {
    if h == 0 {
      ZeroHasNoBit(k);
    } else if k > 0 {
      assert Pow2(h) == 2 * Pow2(h - 1);
      BitsBelow(b / 2, h - 1, k - 1);
    }
  }

  lemma {:induction false} PowerHasBit(k: nat)
    ensures HasBit(Pow2(k), k)
  {
    if k > 0 {
      PowerHasBit(k - 1);
      assert Pow2(k) / 2 == Pow2(k - 1);
    }
  }
}
