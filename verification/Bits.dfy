/** Bitwise operations on unbounded naturals. */
module Bits {

  function Bit(a: nat, i: nat): bool
    decreases i
  {
    if i == 0 then a % 2 == 1 else Bit(a / 2, i - 1)
  }

  function BitAnd(a: nat, b: nat): nat {
    if a == 0 || b == 0 then 0 else 2 * BitAnd(a / 2, b / 2) + (a % 2) * (b % 2)
  }

  function BitOr(a: nat, b: nat): nat {
    if a == 0 then b else if b == 0 then a
    else 2 * BitOr(a / 2, b / 2) + if a % 2 == 1 || b % 2 == 1 then 1 else 0
  }

  function Pow2(n: nat): (r: nat)
    ensures r > 0
  {
    if n == 0 then 1 else 2 * Pow2(n - 1)
  }

  /** The ones from position `lo` to position `hi`. */
  function Ones(lo: nat, hi: nat): nat
    requires lo <= hi + 1
  {
    (Pow2(hi + 1 - lo) - 1) * Pow2(lo)
  }

  function ShiftRight(a: nat, n: nat): nat
    decreases n
  {
    if n == 0 then a else ShiftRight(a / 2, n - 1)
  }

  lemma {:induction false} BitZero(i: nat)
    ensures !Bit(0, i)
  {
    if i > 0 {
      BitZero(i - 1);
    }
  }

  lemma {:induction false} BitAndBit(a: nat, b: nat, i: nat)
    ensures Bit(BitAnd(a, b), i) <==> Bit(a, i) && Bit(b, i)
    decreases i
  {
    if a == 0 || b == 0 {
      BitZero(i);
    } else {
      var low := (a % 2) * (b % 2);
      assert low == if a % 2 == 1 && b % 2 == 1 then 1 else 0;
      assert BitAnd(a, b) / 2 == BitAnd(a / 2, b / 2) && BitAnd(a, b) % 2 == low;
      if i > 0 {
        BitAndBit(a / 2, b / 2, i - 1);
      }
    }
  }

  lemma {:induction false} BitOrBit(a: nat, b: nat, i: nat)
    ensures Bit(BitOr(a, b), i) <==> Bit(a, i) || Bit(b, i)
    decreases i
  {
    BitZero(i);
    if a != 0 && b != 0 {
      var low := if a % 2 == 1 || b % 2 == 1 then 1 else 0;
      assert BitOr(a, b) / 2 == BitOr(a / 2, b / 2) && BitOr(a, b) % 2 == low;
      if i > 0 {
        BitOrBit(a / 2, b / 2, i - 1);
      }
    }
  }

  /** Numbers with the same bits are equal. */
  lemma {:induction false} SameBits(a: nat, b: nat)
    requires forall i: nat :: Bit(a, i) == Bit(b, i)
    ensures a == b
    decreases a + b
  {
    assert Bit(a, 0) == Bit(b, 0);
    if a + b > 0 {
      forall i: nat ensures Bit(a / 2, i) == Bit(b / 2, i) {
        assert Bit(a, i + 1) == Bit(b, i + 1);
      }
      SameBits(a / 2, b / 2);
    }
  }

  ghost predicate Disjoint(a: nat, b: nat) {
    forall i: nat :: !(Bit(a, i) && Bit(b, i))
  }

  /** Without a bit in common, adding is putting the bits together. */
  lemma {:induction false} AddDisjoint(a: nat, b: nat, i: nat)
    requires Disjoint(a, b)
    ensures Bit(a + b, i) <==> Bit(a, i) || Bit(b, i)
    decreases i
  {
    assert !(Bit(a, 0) && Bit(b, 0));
    assert (a + b) / 2 == a / 2 + b / 2;
    if i > 0 {
      forall j: nat ensures !(Bit(a / 2, j) && Bit(b / 2, j)) {
        assert !(Bit(a, j + 1) && Bit(b, j + 1));
      }
      AddDisjoint(a / 2, b / 2, i - 1);
    }
  }

  lemma {:induction false} ShiftLeftBit(a: nat, n: nat, i: nat)
    ensures Bit(a * Pow2(n), i) <==> i >= n && Bit(a, i - n)
    decreases n
  {
    if n > 0 {
      var half := a * Pow2(n - 1);
      assert a * Pow2(n) == 2 * half by {
        assert Pow2(n) == 2 * Pow2(n - 1);
      }
      if i > 0 {
        ShiftLeftBit(a, n - 1, i - 1);
      }
    }
  }

  lemma {:induction false} ShiftRightBit(a: nat, n: nat, i: nat)
    ensures Bit(ShiftRight(a, n), i) <==> Bit(a, i + n)
    decreases n
  {
    if n > 0 {
      ShiftRightBit(a / 2, n - 1, i);
    }
  }

  lemma {:induction false} ShiftIsDiv(a: nat, n: nat)
    ensures ShiftRight(a, n) == a / Pow2(n)
    decreases n
  {
    if n > 0 {
      DivTwice(a, n);
      ShiftIsDiv(a / 2, n - 1);
    }
  }

  lemma DivTwice(a: nat, n: nat)
    requires n > 0
    ensures a / Pow2(n) == (a / 2) / Pow2(n - 1)
  {
    var p := Pow2(n - 1);
    var q, r := a / 2 / p, a / 2 % p;
    assert a / 2 == q * p + r;
    assert a == 2 * (a / 2) + a % 2;
    assert a == q * (2 * p) + (2 * r + a % 2) by {
      assert 2 * (q * p) == q * (2 * p);
    }
    QuotientIs(a, 2 * p, q, 2 * r + a % 2);
  }

  lemma QuotientIs(a: nat, d: nat, q: nat, r: nat)
    requires d > 0 && a == q * d + r && r < d
    ensures a / d == q && a % d == r
  {
    var k: int := a / d - q;
    assert a == (a / d) * d + a % d;
    assert (a / d) * d == k * d + q * d;
    Multiple(k, d);
  }

  lemma Multiple(k: int, d: int)
    requires d > 0
    ensures (k > 0 ==> k * d >= d) && (k < 0 ==> k * d <= -d)
  {
  }

  lemma {:induction false} ModBit(a: nat, n: nat, i: nat)
    ensures Bit(a % Pow2(n), i) <==> i < n && Bit(a, i)
    decreases n
  {
    if n == 0 {
      BitZero(i);
    } else {
      ModTwice(a, n);
      BitOfTwice((a / 2) % Pow2(n - 1), a % 2, i);
      hide Pow2;
      if i > 0 {
        ModBit(a / 2, n - 1, i - 1);
      }
    }
  }

  lemma BitOfTwice(a: nat, b: nat, i: nat)
    requires b < 2
    ensures Bit(2 * a + b, i) == if i == 0 then b == 1 else Bit(a, i - 1)
  {
    assert (2 * a + b) / 2 == a && (2 * a + b) % 2 == b;
  }

  lemma ModTwice(a: nat, n: nat)
    requires n > 0
    ensures a % Pow2(n) == 2 * ((a / 2) % Pow2(n - 1)) + a % 2
  {
    var p := Pow2(n - 1);
    var q, r := a / 2 / p, a / 2 % p;
    assert a / 2 == q * p + r;
    assert a == q * (2 * p) + (2 * r + a % 2) by {
      assert 2 * (q * p) == q * (2 * p);
    }
    QuotientIs(a, 2 * p, q, 2 * r + a % 2);
  }

  lemma {:induction false} LowOnesBit(n: nat, i: nat)
    ensures Bit(Pow2(n) - 1, i) <==> i < n
    decreases n
  {
    if n == 0 {
      BitZero(i);
    } else {
      assert Pow2(n) - 1 == 2 * (Pow2(n - 1) - 1) + 1;
      assert (Pow2(n) - 1) / 2 == Pow2(n - 1) - 1;
      if i > 0 {
        LowOnesBit(n - 1, i - 1);
      }
    }
  }

  lemma OnesBit(lo: nat, hi: nat, i: nat)
    requires lo <= hi + 1
    ensures Bit(Ones(lo, hi), i) <==> lo <= i <= hi
  {
    ShiftLeftBit(Pow2(hi + 1 - lo) - 1, lo, i);
    if i >= lo {
      LowOnesBit(hi + 1 - lo, i - lo);
    }
  }

  /** A number below 2^n has no bits from position n on, and the other way round. */
  lemma BitsBelow(a: nat, n: nat, i: nat)
    requires a < Pow2(n) && Bit(a, i)
    ensures i < n
  {
    ModSmall(a, Pow2(n));
    ModBit(a, n, i);
  }

  lemma ModSmall(a: nat, d: nat)
    requires a < d
    ensures a % d == a
  {
  }

  lemma BelowFromBits(a: nat, n: nat)
    requires forall i: nat :: Bit(a, i) ==> i < n
    ensures a < Pow2(n)
  {
    var b := a % Pow2(n);
    forall i: nat ensures Bit(a, i) == Bit(b, i) {
      ModBit(a, n, i);
    }
    SameBits(a, b);
  }
}
