/**
 Machine-word arithmetic used by the buddy allocator, on unbounded naturals:
 shifts, exclusive or, `ilog2`, `trailing_zeros` and `count_ones`.
 */
module Bits {

  function Pow2(k: nat): (r: nat)
    ensures r >= 1
  {
    if k == 0 then 1 else 2 * Pow2(k - 1)
  }

  /** `n << k`, by repeated doubling. */
  function Shl(n: nat, k: nat): nat {
    if k == 0 then n else 2 * Shl(n, k - 1)
  }

  /** `n >> k`, by repeated halving. */
  function Shr(n: nat, k: nat): nat {
    if k == 0 then n else Shr(n, k - 1) / 2
  }

  /** `a ^ b`, bit by bit from the least significant end. */
  function Xor(a: nat, b: nat): nat
    decreases a + b
  {
    if a == 0 && b == 0 then 0
    else (if a % 2 != b % 2 then 1 else 0) + 2 * Xor(a / 2, b / 2)
  }

  function Ilog2(n: nat): nat
    requires n > 0
  {
    if n == 1 then 0 else 1 + Ilog2(n / 2)
  }

  function TrailingZeros(n: nat): nat
    requires n > 0
  {
    if n % 2 == 1 then 0 else 1 + TrailingZeros(n / 2)
  }

  function CountOnes(n: nat): nat {
    if n == 0 then 0 else n % 2 + CountOnes(n / 2)
  }

  function Flip(i: nat): nat {
    if i % 2 == 0 then i + 1 else i - 1
  }

  lemma {:induction false} ShlIsProduct(n: nat, k: nat)
    ensures Shl(n, k) == n * Pow2(k)
  {
    if k == 0 {
    } else {
      ShlIsProduct(n, k - 1);
    }
  }

  lemma {:induction false} ShlComposes(n: nat, j: nat, k: nat)
    ensures Shl(Shl(n, j), k) == Shl(n, j + k)
  {
    if k == 0 {
    } else {
      ShlComposes(n, j, k - 1);
    }
  }

  lemma {:induction false} ShlSuccessor(n: nat, k: nat)
    ensures Shl(n + 1, k) == Shl(n, k) + Pow2(k)
  {
    if k == 0 {
    } else {
      ShlSuccessor(n, k - 1);
    }
  }

  lemma {:induction false} Pow2IsShl(k: nat)
    ensures Pow2(k) == Shl(1, k)
  {
    if k == 0 {
    } else {
      Pow2IsShl(k - 1);
    }
  }

  lemma {:induction false} Pow2Increasing(a: nat, b: nat)
    requires a < b
    ensures Pow2(a) < Pow2(b)
  {
    if a + 1 < b {
      Pow2Increasing(a, b - 1);
    }
  }

  lemma {:induction false} ShrComposes(n: nat, j: nat, k: nat)
    ensures Shr(Shr(n, j), k) == Shr(n, j + k)
  {
    if k == 0 {
    } else {
      ShrComposes(n, j, k - 1);
    }
  }

  /** Shifting right by `k` gives `i` exactly on the 2^k numbers from `i << k` on. */
  lemma {:induction false} ShrInterval(n: nat, k: nat, i: nat)
    ensures Shr(n, k) == i <==> Shl(i, k) <= n < Shl(i, k) + Pow2(k)
  {
    if k == 0 {
    } else {
      ShrInterval(n, k - 1, 2 * i);
      ShrInterval(n, k - 1, 2 * i + 1);
      ShlSuccessor(2 * i, k - 1);
      ShlComposes(i, 1, k - 1);
      assert Shl(i, 1) == 2 * Shl(i, 0) == 2 * i;
    }
  }

  lemma {:induction false} XorZero(a: nat)
    ensures Xor(a, 0) == a
  {
    if a == 0 {
    } else {
      XorZero(a / 2);
    }
  }

  /** Exclusive or with a block's own size flips the lowest bit of its index. */
  lemma {:induction false} XorFlips(i: nat, k: nat)
    ensures Xor(Shl(i, k), Pow2(k)) == Shl(Flip(i), k)
  {
    if k == 0 {
      XorZero(i / 2);
      assert Xor(i, 1) == (if i % 2 != 1 then 1 else 0) + 2 * Xor(i / 2, 0);
    } else {
      XorFlips(i, k - 1);
      XorDoubles(Shl(i, k - 1), Pow2(k - 1));
    }
  }

  lemma XorDoubles(a: nat, b: nat)
    ensures Xor(2 * a, 2 * b) == 2 * Xor(a, b)
  {
  }

  lemma {:induction false} Ilog2Brackets(n: nat)
    requires n > 0
    ensures Pow2(Ilog2(n)) <= n < 2 * Pow2(Ilog2(n))
  {
    if n == 1 {
    } else {
      Ilog2Brackets(n / 2);
    }
  }

  /** So many zeros and then a one. */
  lemma {:induction false} TrailingZerosAre(n: nat) returns (odd: nat)
    requires n > 0
    ensures odd % 2 == 1 && n == Shl(odd, TrailingZeros(n))
  {
    if n % 2 == 1 {
      odd := n;
    } else {
      odd := TrailingZerosAre(n / 2);
    }
  }

  lemma {:induction false} TrailingZerosOfShl(n: nat, k: nat)
    requires n > 0
    ensures Shl(n, k) > 0 && TrailingZeros(Shl(n, k)) >= k
  {
    if k == 0 {
    } else {
      TrailingZerosOfShl(n, k - 1);
    }
  }

  /** The bits set among the lowest `d`, plus the number the higher bits form. */
  function CountLow(n: nat, d: nat): nat {
    if d == 0 then n else n % 2 + CountLow(n / 2, d - 1)
  }

  lemma {:induction false} CountLowOfShl(n: nat, k: nat, d: nat)
    requires k <= d
    ensures CountLow(Shl(n, k), d) == CountLow(n, d - k)
  {
    if k == 0 {
    } else {
      CountLowOfShl(n, k - 1, d - 1);
    }
  }

  lemma {:induction false} CountLowSplit(q: nat, r: nat, d: nat)
    requires r < Pow2(d)
    ensures CountLow(Shl(q, d) + r, d) == q + CountOnes(r)
  {
    if d == 0 {
    } else {
      CountLowSplit(q, r / 2, d - 1);
      assert (Shl(q, d) + r) / 2 == Shl(q, d - 1) + r / 2;
    }
  }
}
