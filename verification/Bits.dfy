/**
 Bitwise operators of C on unsigned words, on unbounded naturals: bit i of the result is the
 operator applied to bit i of the operands. Used for the run-queue bitmap, for alignment masks
 and for address arithmetic.
 */
module Bits {

  function Pow2(n: nat): (p: nat)
    ensures p >= 1
  {
    if n == 0 then 1 else 2 * Pow2(n - 1)
  }

  predicate Bit(x: nat, i: nat) {
    if i == 0 then x % 2 == 1 else Bit(x / 2, i - 1)
  }

  function B2N(b: bool): nat { if b then 1 else 0 }

  function Or(x: nat, y: nat): nat
    decreases x + y
  {
    if x == 0 && y == 0 then 0 else 2 * Or(x / 2, y / 2) + B2N(x % 2 == 1 || y % 2 == 1)
  }

  function And(x: nat, y: nat): nat
    decreases x + y
  {
    if x == 0 && y == 0 then 0 else 2 * And(x / 2, y / 2) + B2N(x % 2 == 1 && y % 2 == 1)
  }

  function Xor(x: nat, y: nat): nat
    decreases x + y
  {
    if x == 0 && y == 0 then 0 else 2 * Xor(x / 2, y / 2) + B2N(x % 2 != y % 2)
  }

  /** Complement of an n-bit word. */
  function Not(x: nat, n: nat): nat
    requires x < Pow2(n)
  {
    Pow2(n) - 1 - x
  }

  /** Position of the highest set bit plus one; 0 for 0. */
  function BitLen(x: nat): nat {
    if x == 0 then 0 else 1 + BitLen(x / 2)
  }

  /** __builtin_clz on a 32-bit word. */
  function Clz32(x: nat): int {
    32 - BitLen(x)
  }

  lemma {:induction false} ZeroBits(i: nat)
    ensures !Bit(0, i)
  {
    if i > 0 {
      ZeroBits(i - 1);
    }
  }

  lemma {:induction false} OrBit(x: nat, y: nat, i: nat)
    ensures Bit(Or(x, y), i) <==> Bit(x, i) || Bit(y, i)
    decreases i
  {
    if x == 0 && y == 0 {
      ZeroBits(i);
    } else if i > 0 {
      OrBit(x / 2, y / 2, i - 1);
    }
  }

  lemma {:induction false} AndBit(x: nat, y: nat, i: nat)
    ensures Bit(And(x, y), i) <==> Bit(x, i) && Bit(y, i)
    decreases i
  {
    if x == 0 && y == 0 {
      ZeroBits(i);
    } else if i > 0 {
      AndBit(x / 2, y / 2, i - 1);
    }
  }

  lemma {:induction false} NotBit(x: nat, n: nat, i: nat)
    requires x < Pow2(n) && i < n
    ensures Bit(Not(x, n), i) <==> !Bit(x, i)
    decreases i
  {
    if i > 0 {
      NotBit(x / 2, n - 1, i - 1);
      assert Not(x, n) / 2 == Not(x / 2, n - 1);
    }
  }

  lemma {:induction false} Pow2Bit(p: nat, i: nat)
    ensures Bit(Pow2(p), i) <==> p == i
    decreases i
  {
    if p == 0 {
      if i > 0 {
        ZeroBits(i - 1);
      }
    } else if i > 0 {
      Pow2Bit(p - 1, i - 1);
    }
  }

  lemma {:induction false} OrBound(x: nat, y: nat, n: nat)
    requires x < Pow2(n) && y < Pow2(n)
    ensures Or(x, y) < Pow2(n)
  {
    if n > 0 {
      OrBound(x / 2, y / 2, n - 1);
    }
  }

  lemma {:induction false} AndBound(x: nat, y: nat)
    ensures And(x, y) <= x && And(x, y) <= y
    decreases x + y
  {
    if x != 0 || y != 0 {
      AndBound(x / 2, y / 2);
    }
  }

  lemma {:induction false} Pow2Monotone(a: nat, b: nat)
    requires a <= b
    ensures Pow2(a) <= Pow2(b)
  {
    if a < b {
      Pow2Monotone(a, b - 1);
    }
  }

  /** The highest set bit of a nonzero word is at BitLen - 1, and nothing is set above it. */
  lemma {:induction false} BitLenTop(x: nat, i: nat)
    ensures x > 0 ==> Bit(x, BitLen(x) - 1)
    ensures i >= BitLen(x) ==> !Bit(x, i)
    decreases x
  {
    if x == 0 {
      ZeroBits(i);
    } else {
      BitLenTop(x / 2, if i > 0 then i - 1 else 0);
    }
  }

  lemma {:induction false} BitLenBound(x: nat, n: nat)
    requires x < Pow2(n)
    ensures BitLen(x) <= n
  {
    if x > 0 {
      BitLenBound(x / 2, n - 1);
    }
  }

  /** Masking with 2^k - 1 is the remainder modulo 2^k. */
  lemma {:induction false} AndLowMask(x: nat, k: nat)
    ensures And(x, Pow2(k) - 1) == x % Pow2(k)
    decreases k
  {
    hide And;
    if k == 0 {
      AndBound(x, 0);
    } else {
      AndLowMask(x / 2, k - 1);
      AndStep(x, Pow2(k) - 1);
      assert (Pow2(k) - 1) / 2 == Pow2(k - 1) - 1;
      HalfMod(x, Pow2(k - 1));
    }
  }

  lemma HalfMod(x: nat, m: nat)
    requires m > 0
    ensures x % (2 * m) == 2 * (x / 2 % m) + x % 2
  {
    var q, r := x / 2 / m, x / 2 % m;
    assert x / 2 == q * m + r;
    assert x == 2 * (q * m + r) + x % 2;
    assert x == q * (2 * m) + (2 * r + x % 2);
    ModUnique(x, 2 * m, q, 2 * r + x % 2);
  }

  lemma MulAtLeast(d: nat, m: nat)
    requires d >= 1
    ensures d * m >= m
  {
  }

  lemma MulDiff(a: nat, b: nat, m: nat)
    ensures (a - b) * m == a * m - b * m
  {
  }

  lemma ModUnique(x: nat, m: nat, q: nat, r: nat)
    requires x == q * m + r && r < m
    ensures x % m == r && x / m == q
  {
    var q', r' := x / m, x % m;
    assert x == q' * m + r';
    MulDiff(q', q, m);
    MulDiff(q, q', m);
    if q' > q {
      MulAtLeast(q' - q, m);
    }
    if q' < q {
      MulAtLeast(q - q', m);
    }
  }

  /** The n-bit word ~(2^k - 1). */
  function HighMask(k: nat, n: nat): nat
    requires k <= n
  {
    Pow2Monotone(k, n);
    Pow2(n) - Pow2(k)
  }

  /** Masking an n-bit word with ~(2^k - 1) rounds it down to a multiple of 2^k. */
  lemma {:induction false} AndHighMask(x: nat, k: nat, n: nat)
    requires k <= n && x < Pow2(n)
    ensures And(x, HighMask(k, n)) == x - x % Pow2(k)
    decreases k
  {
    if k == 0 {
      AndAll(x, n);
    } else {
      AndHighMask(x / 2, k - 1, n - 1);
      HalfMod(x, Pow2(k - 1));
      var m := HighMask(k, n);
      assert m == 2 * HighMask(k - 1, n - 1);
      AndStep(x, m);
    }
  }

  lemma AndStep(x: nat, y: nat)
    ensures And(x, y) == 2 * And(x / 2, y / 2) + B2N(x % 2 == 1 && y % 2 == 1)
  {
  }

  lemma {:induction false} AndAll(x: nat, n: nat)
    requires x < Pow2(n)
    ensures And(x, Pow2(n) - 1) == x
  {
    if n > 0 {
      AndAll(x / 2, n - 1);
      var m := Pow2(n) - 1;
      assert m / 2 == Pow2(n - 1) - 1 && m % 2 == 1;
      AndStep(x, m);
    }
  }

  /** A number shares no bit with its predecessor exactly when it is a power of two. */
  lemma {:induction false} PowerOfTwoTest(a: nat) returns (k: nat)
    requires a > 0
    ensures And(a, a - 1) == 0 <==> a == Pow2(k)
    ensures And(a, a - 1) != 0 ==> forall j: nat :: a != Pow2(j)
  {
    if a == 1 {
      k := 0;
    } else if a % 2 == 1 {
      k := 0;
      assert (a - 1) / 2 == a / 2 && (a - 1) % 2 == 0;
      AndSelf(a / 2);
      forall j: nat
        ensures a != Pow2(j)
      {
      }
    } else {
      var k' := PowerOfTwoTest(a / 2);
      k := k' + 1;
      assert (a - 1) / 2 == a / 2 - 1;
      forall j: nat | And(a, a - 1) != 0
        ensures a != Pow2(j)
      {
        if j > 0 {
          assert a / 2 != Pow2(j - 1);
        }
      }
    }
  }

  lemma {:induction false} AndSelf(x: nat)
    ensures And(x, x) == x
  {
    if x > 0 {
      AndSelf(x / 2);
    }
  }

  /** An or without common bits is a sum. */
  lemma {:induction false} OrSum(x: nat, y: nat, k: nat)
    requires x < Pow2(k)
    ensures Or(x, y * Pow2(k)) == x + y * Pow2(k)
    decreases k
  {
    hide Or;
    if k == 0 {
      OrZero(y);
    } else {
      OrSum(x / 2, y, k - 1);
      OrDouble(x, y * Pow2(k - 1));
      Doubled(y, Pow2(k - 1));
    }
  }

  lemma Doubled(y: nat, p: nat)
    ensures y * (2 * p) == 2 * (y * p)
  {
  }

  lemma OrDouble(x: nat, z: nat)
    ensures Or(x, 2 * z) == 2 * Or(x / 2, z) + x % 2
  {
  }

  lemma {:induction false} OrZero(y: nat)
    ensures Or(0, y) == y
  {
    if y > 0 {
      OrZero(y / 2);
    }
  }

  lemma {:induction false} PowAdd(a: nat, b: nat)
    ensures Pow2(a + b) == Pow2(a) * Pow2(b)
  {
    if b > 0 {
      PowAdd(a, b - 1);
    }
  }
}
