/**
 Bitwise exclusive-or, and and or on natural numbers, and the 32-bit operators of
 JavaScript built on them.
 */
module JsNumber {

  // ---------------------------------------------------------------- bitwise operators

  function Xor(a: nat, b: nat): nat
    decreases a + b
  {
    if a == 0 && b == 0 then 0
    else (if a % 2 == b % 2 then 0 else 1) + 2 * Xor(a / 2, b / 2)
  }

  function And(a: nat, b: nat): nat
    decreases a + b
  {
    if a == 0 && b == 0 then 0
    else a % 2 * (b % 2) + 2 * And(a / 2, b / 2)
  }

  function Or(a: nat, b: nat): nat
    decreases a + b
  {
    if a == 0 && b == 0 then 0
    else (if a % 2 == 1 || b % 2 == 1 then 1 else 0) + 2 * Or(a / 2, b / 2)
  }

  function Pow2(k: nat): (p: nat)
    ensures p >= 1
  {
    if k == 0 then 1 else 2 * Pow2(k - 1)
  }

  lemma Pow2Of32()
    ensures Pow2(8) == 0x100 && Pow2(31) == 0x8000_0000 && Pow2(32) == 0x1_0000_0000
  {
    assert Pow2(4) == 0x10 && Pow2(8) == 0x100 && Pow2(12) == 0x1000;
    assert Pow2(16) == 0x1_0000 && Pow2(20) == 0x10_0000;
    assert Pow2(24) == 0x100_0000 && Pow2(28) == 0x1000_0000;
  }

  lemma XorHalves(a: nat, b: nat)
    ensures Xor(a, b) / 2 == Xor(a / 2, b / 2)
    ensures Xor(a, b) % 2 == if a % 2 == b % 2 then 0 else 1
  {
  }

  /** Two naturals with the same low bit and the same upper bits are equal. */
  lemma SameHalves(a: nat, b: nat)
    requires a % 2 == b % 2 && a / 2 == b / 2
    ensures a == b
  {
  }

  lemma {:induction false} XorZero(a: nat)
    ensures Xor(a, 0) == a && Xor(0, a) == a
  {
    if a != 0 {
      XorZero(a / 2);
    }
  }

  lemma {:induction false} XorSelf(a: nat)
    ensures Xor(a, a) == 0
  {
    if a != 0 {
      XorSelf(a / 2);
    }
  }

  lemma {:induction false} XorCommutes(a: nat, b: nat)
    ensures Xor(a, b) == Xor(b, a)
    decreases a + b
  {
    if a != 0 || b != 0 {
      XorCommutes(a / 2, b / 2);
    }
  }

  lemma XorParity(a: nat, b: nat, c: nat)
    ensures Xor(Xor(a, b), c) % 2 == Xor(a, Xor(b, c)) % 2
  {
    XorHalves(a, b);
    XorHalves(b, c);
    XorHalves(Xor(a, b), c);
    XorHalves(a, Xor(b, c));
  }

  lemma {:induction false} XorAssociates(a: nat, b: nat, c: nat)
    ensures Xor(Xor(a, b), c) == Xor(a, Xor(b, c))
    decreases a + b + c
  {
    if a != 0 || b != 0 || c != 0 {
      assert Xor(Xor(a, b), c) / 2 == Xor(Xor(a / 2, b / 2), c / 2) by {
        XorHalves(a, b);
        XorHalves(Xor(a, b), c);
      }
      assert Xor(a, Xor(b, c)) / 2 == Xor(a / 2, Xor(b / 2, c / 2)) by {
        XorHalves(b, c);
        XorHalves(a, Xor(b, c));
      }
      XorAssociates(a / 2, b / 2, c / 2);
      XorParity(a, b, c);
      SameHalves(Xor(Xor(a, b), c), Xor(a, Xor(b, c)));
    }
  }

  /** The middle two of four operands can be exchanged. */
  lemma XorExchange(a: nat, b: nat, c: nat, d: nat)
    ensures Xor(Xor(a, b), Xor(c, d)) == Xor(Xor(a, c), Xor(b, d))
  {
    XorAssociates(a, b, Xor(c, d));
    XorAssociates(b, c, d);
    XorCommutes(b, c);
    XorAssociates(c, b, d);
    XorAssociates(a, c, Xor(b, d));
  }

  lemma XorInjective(a: nat, b: nat, c: nat)
    requires Xor(a, c) == Xor(b, c)
    ensures a == b
  {
  }

  lemma {:induction false} XorRange(k: nat, a: nat, b: nat)
    requires a < Pow2(k) && b < Pow2(k)
    ensures Xor(a, b) < Pow2(k)
  {
    if k != 0 {
      XorRange(k - 1, a / 2, b / 2);
    }
  }

  /** Operands with no common bit: exclusive-or is addition. */
  lemma {:induction false} XorDisjoint(k: nat, low: nat, high: nat)
    requires low < Pow2(k)
    ensures Xor(low, Pow2(k) * high) == low + Pow2(k) * high
  {
    if k == 0 {
      XorZero(high);
    } else {
      var p := Pow2(k - 1) * high;
      assert Pow2(k) * high == 2 * p;
      XorDisjoint(k - 1, low / 2, high);
      XorHalves(low, 2 * p);
      assert Xor(low, 2 * p) == low % 2 + 2 * Xor(low / 2, p);
    }
  }

  lemma {:induction false} AndZero(a: nat)
    ensures And(a, 0) == 0
  {
    if a != 0 {
      AndZero(a / 2);
    }
  }

  lemma {:induction false} AndOne(a: nat)
    ensures And(a, 1) == a % 2
  {
    AndZero(a / 2);
  }

  lemma {:induction false} OrZero(a: nat)
    ensures Or(a, 0) == a
  {
    if a != 0 {
      OrZero(a / 2);
    }
  }

  // ---------------------------------------------------------------- the 32-bit operators

  const TWO_TO_THE_32: nat := 0x1_0000_0000

  /** ToUint32 of an integral number; a bitwise operator sees only these 32 bits. */
  function ToUint32(x: int): (n: nat)
    ensures n < TWO_TO_THE_32
  {
    x % TWO_TO_THE_32
  }

  /** ToInt32: the same bits read in two's complement. */
  function ToInt32(x: int): (n: int)
    ensures -0x8000_0000 <= n < 0x8000_0000
  {
    var n := ToUint32(x);
    if n < 0x8000_0000 then n else n - TWO_TO_THE_32
  }

  function JsXor(x: int, y: int): int {
    ToInt32(Xor(ToUint32(x), ToUint32(y)))
  }

  function JsAnd(x: int, y: int): int {
    ToInt32(And(ToUint32(x), ToUint32(y)))
  }

  function JsOr(x: int, y: int): int {
    ToInt32(Or(ToUint32(x), ToUint32(y)))
  }

  /** `x >>> 1`: the result is the unsigned reading, also of a negative `x`. */
  function JsShiftRight1(x: int): int {
    ToUint32(x) / 2
  }

  lemma Uint32OfInt32(x: int)
    ensures ToUint32(ToInt32(x)) == ToUint32(x)
    ensures ToInt32(ToUint32(x)) == ToInt32(x)
  {
  }

  lemma WordReadBack(w: nat)
    requires w < TWO_TO_THE_32
    ensures ToUint32(ToInt32(w)) == w
  {
  }

  lemma Uint32OfJsXor(x: int, y: int)
    ensures ToUint32(JsXor(x, y)) == Xor(ToUint32(x), ToUint32(y))
  {
    Pow2Of32();
    XorRange(32, ToUint32(x), ToUint32(y));
    Uint32OfInt32(Xor(ToUint32(x), ToUint32(y)));
  }
}
