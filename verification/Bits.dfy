// Machine words as naturals: quotients, the bit operators the program uses, and what they do to each bit.

module Division {
  lemma Multiple(k: int, d: int)
    requires k >= 1 && d >= 0
    ensures k * d >= d
  {
    assert (k - 1) * d >= 0;
    assert (k - 1) * d == k * d - d;
  }

  /** Quotient and remainder are unique. */
  lemma Unique(d: nat, k: int, m: nat, q: int, r: nat)
    requires m < d && r < d && k * d + m == q * d + r
    ensures k == q && m == r
  {
    if k > q {
      assert (k - q) * d == r - m;
      Multiple(k - q, d);
    } else if q > k {
      assert (q - k) * d == m - r;
      Multiple(q - k, d);
    }
  }

  lemma DivMod(n: nat, d: nat, q: nat, r: nat)
    requires r < d && n == q * d + r
    ensures n / d == q && n % d == r
  {
    var k, m := n / d, n % d;
    Unique(d, k, m, q, r);
  }
}

module Bits {
  const WORD: nat := 0x1_0000_0000

  /** 1 << i */
  function Pow2(i: nat): (r: nat)
    ensures r >= 1
  {
    if i == 0 then 1 else 2 * Pow2(i - 1)
  }

  /** (x >> i) & 1 */
  predicate Bit(x: nat, i: nat) {
    if i == 0 then x % 2 == 1 else Bit(x / 2, i - 1)
  }

  /** x | y */
  function Or(x: nat, y: nat): nat {
    if x == 0 && y == 0 then 0
    else 2 * Or(x / 2, y / 2) + if x % 2 == 1 || y % 2 == 1 then 1 else 0
  }

  /** x & y */
  function And(x: nat, y: nat): nat {
    if x == 0 || y == 0 then 0
    else 2 * And(x / 2, y / 2) + if x % 2 == 1 && y % 2 == 1 then 1 else 0
  }

  /** !x on a 32-bit word. */
  function Not(x: nat): nat
    requires x < WORD
  {
    WORD - 1 - x
  }

  lemma {:induction false} BitOfZero(i: nat)
    ensures !Bit(0, i)
  {
    if i > 0 {
      BitOfZero(i - 1);
    }
  }

  lemma OrHalves(x: nat, y: nat)
    ensures Or(x, y) / 2 == Or(x / 2, y / 2)
    ensures Or(x, y) % 2 == 1 <==> x % 2 == 1 || y % 2 == 1
  {
  }

  lemma AndHalves(x: nat, y: nat)
    ensures And(x, y) / 2 == And(x / 2, y / 2)
    ensures And(x, y) % 2 == 1 <==> x % 2 == 1 && y % 2 == 1
  {
  }

  lemma {:induction false} BitOfOr(x: nat, y: nat, i: nat)
    ensures Bit(Or(x, y), i) <==> Bit(x, i) || Bit(y, i)
    decreases i
  {
    if x == 0 && y == 0 {
      BitOfZero(i);
    } else {
      OrHalves(x, y);
      if i > 0 {
        BitOfOr(x / 2, y / 2, i - 1);
      }
      hide Or;
    }
  }

  lemma {:induction false} BitOfAnd(x: nat, y: nat, i: nat)
    ensures Bit(And(x, y), i) <==> Bit(x, i) && Bit(y, i)
    decreases i
  {
    if x == 0 || y == 0 {
      BitOfZero(i);
    } else {
      AndHalves(x, y);
      if i > 0 {
        BitOfAnd(x / 2, y / 2, i - 1);
      }
      hide And;
    }
  }

  lemma {:induction false} BitOfPow2(i: nat, j: nat)
    ensures Bit(Pow2(i), j) <==> i == j
    decreases i
  {
    if i == 0 {
      if j > 0 {
        BitOfZero(j - 1);
      }
    } else if j > 0 {
      BitOfPow2(i - 1, j - 1);
    }
  }

  /** All n low bits and nothing above them: (1 << n) - 1. */
  lemma {:induction false} BitOfLowOnes(n: nat, i: nat)
    ensures Bit(Pow2(n) - 1, i) <==> i < n
    decreases n
  {
    if n == 0 {
      BitOfZero(i);
    } else if i > 0 {
      BitOfLowOnes(n - 1, i - 1);
      assert (Pow2(n) - 1) / 2 == Pow2(n - 1) - 1;
    }
  }

  /** Complementing flips each of the n low bits. */
  lemma {:induction false} BitOfComplement(x: nat, n: nat, i: nat)
    requires x < Pow2(n) && i < n
    ensures Bit(Pow2(n) - 1 - x, i) <==> !Bit(x, i)
    decreases n
  {
    var y := Pow2(n) - 1 - x;
    assert y % 2 == 1 - x % 2 && y / 2 == Pow2(n - 1) - 1 - x / 2;
    if i > 0 {
      BitOfComplement(x / 2, n - 1, i - 1);
    }
  }

  lemma WordIsPow2()
    ensures Pow2(32) == WORD
  {
    assert Pow2(8) == 256;
    assert Pow2(16) == 256 * Pow2(8);
    assert Pow2(24) == 256 * Pow2(16);
    assert Pow2(32) == 256 * Pow2(24);
  }

  /** Words below 2^n with the same n low bits are the same word. */
  lemma {:induction false} SameBits(x: nat, y: nat, n: nat)
    requires x < Pow2(n) && y < Pow2(n)
    requires forall i :: 0 <= i < n ==> (Bit(x, i) <==> Bit(y, i))
    ensures x == y
    decreases n
  {
    if n > 0 {
      assert Bit(x, 0) <==> Bit(y, 0);
      forall i | 0 <= i < n - 1 ensures Bit(x / 2, i) <==> Bit(y / 2, i) {
        assert Bit(x, i + 1) <==> Bit(y, i + 1);
      }
      SameBits(x / 2, y / 2, n - 1);
    }
  }

  lemma {:induction false} OrFits(x: nat, y: nat, n: nat)
    requires x < Pow2(n) && y < Pow2(n)
    ensures Or(x, y) < Pow2(n)
    decreases n
  {
    if n > 0 {
      OrFits(x / 2, y / 2, n - 1);
    }
  }

  lemma {:induction false} AndFits(x: nat, y: nat, n: nat)
    requires x < Pow2(n)
    ensures And(x, y) < Pow2(n)
    decreases n
  {
    if n > 0 {
      AndFits(x / 2, y / 2, n - 1);
    }
  }

  lemma {:induction false} Pow2Fits(i: nat, n: nat)
    requires i < n
    ensures Pow2(i) < Pow2(n)
    decreases n
  {
    if i < n - 1 {
      Pow2Fits(i, n - 1);
    }
  }

  /** x |= 1 << i, on a word: bit i is set, the others stay. */
  lemma SettingABit(x: nat, i: nat, j: nat)
    ensures Bit(Or(x, Pow2(i)), j) <==> i == j || Bit(x, j)
  {
    BitOfOr(x, Pow2(i), j);
    BitOfPow2(i, j);
  }

  lemma SettingFits(x: nat, i: nat, n: nat)
    requires x < Pow2(n) && i < n
    ensures Or(x, Pow2(i)) < Pow2(n)
  {
    Pow2Fits(i, n);
    OrFits(x, Pow2(i), n);
  }

  lemma Pow2IsAWord(i: nat)
    requires i < 32
    ensures Pow2(i) < WORD
  {
    WordIsPow2();
    Pow2Fits(i, 32);
  }

  /** x &= !(1 << i), on a word: bit i is cleared, the others stay. */
  lemma ClearingABit(x: nat, i: nat, j: nat)
    requires i < 32 && j < 32
    ensures Pow2(i) < WORD
    ensures Bit(And(x, Not(Pow2(i))), j) <==> i != j && Bit(x, j)
  {
    Pow2IsAWord(i);
    WordIsPow2();
    BitOfAnd(x, Not(Pow2(i)), j);
    BitOfComplement(Pow2(i), 32, j);
    BitOfPow2(i, j);
  }
}
