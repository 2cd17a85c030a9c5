/** Binary arithmetic on ranks: powers of two, shifts and the bit flip r ^ 2^i. */
module Bits {

  function Pow2(k: nat): (n: nat)
    ensures 1 <= n
  {
    if k == 0 then 1 else 2 * Pow2(k - 1)
  }

  /** The largest `k` with 2^k <= n. */
  function FloorLog2(n: nat): (k: nat)
    requires 1 <= n
    ensures Pow2(k) <= n < Pow2(k + 1)
  {
    if n == 1 then 0 else 1 + FloorLog2(n / 2)
  }

  lemma {:induction false} FloorLog2OfPow2(k: nat)
    ensures FloorLog2(Pow2(k)) == k
  {
    if k == 0 {
    } else {
      FloorLog2OfPow2(k - 1);
    }
  }

  function CeilLog2(n: nat): (k: nat)
    requires 1 <= n
    ensures n <= Pow2(k) && (1 < n ==> 1 <= k && Pow2(k - 1) < n)
  {
    if n == 1 then 0 else 1 + CeilLog2((n + 1) / 2)
  }

  lemma {:induction false} Pow2Monotonic(i: nat, k: nat)
    requires i <= k
    ensures Pow2(i) <= Pow2(k)
  {
    if i == k {
    } else {
      Pow2Monotonic(i, k - 1);
    }
  }

  /** Bitwise exclusive or. */
  function Xor(a: nat, b: nat): nat {
    if a == 0 && b == 0 then 0 else 2 * Xor(a / 2, b / 2) + (if a % 2 == b % 2 then 0 else 1)
  }

  /** `j` with bit `i` inverted. */
  function Flip(j: nat, i: nat): nat {
    if i == 0 then (if j % 2 == 0 then j + 1 else j - 1) else 2 * Flip(j / 2, i - 1) + j % 2
  }

  lemma {:induction false} XorZero(j: nat)
    ensures Xor(j, 0) == j
  {
    if j == 0 {
    } else {
      XorZero(j / 2);
    }
  }

  lemma {:induction false} XorPow2IsFlip(j: nat, i: nat)
    ensures Xor(j, Pow2(i)) == Flip(j, i)
  {
    if i == 0 {
      XorZero(j / 2);
    } else {
      XorPow2IsFlip(j / 2, i - 1);
    }
  }

  lemma {:induction false} FlipInvolution(j: nat, i: nat)
    ensures Flip(Flip(j, i), i) == j && Flip(j, i) != j
  {
    if i == 0 {
    } else {
      FlipInvolution(j / 2, i - 1);
    }
  }

  lemma {:induction false} FlipBound(j: nat, i: nat, k: nat)
    requires j < Pow2(k) && i < k
    ensures Flip(j, i) < Pow2(k)
  {
    var half := Pow2(k - 1);
    assert Pow2(k) == 2 * half && j / 2 < half;
    if 0 < i {
      FlipBound(j / 2, i - 1, k - 1);
      assert Flip(j, i) == 2 * Flip(j / 2, i - 1) + j % 2;
    } else {
      assert Flip(j, 0) <= 2 * (j / 2) + 1;
    }
  }

  function Shr(j: nat, k: nat): nat {
    if k == 0 then j else Shr(j / 2, k - 1)
  }

  lemma {:induction false} ShrStep(j: nat, k: nat)
    ensures Shr(j, k + 1) == Shr(j, k) / 2
  {
    if k == 0 {
    } else {
      ShrStep(j / 2, k - 1);
    }
  }

  lemma {:induction false} ShrFlip(j: nat, k: nat)
    ensures Shr(Flip(j, k), k) == Flip(Shr(j, k), 0)
  {
    if k == 0 {
    } else {
      ShrFlip(j / 2, k - 1);
    }
  }

  lemma {:induction false} ShrZero(j: nat, k: nat)
    requires j < Pow2(k)
    ensures Shr(j, k) == 0
  {
    if k == 0 {
    } else {
      ShrZero(j / 2, k - 1);
    }
  }

  lemma {:induction false} Doubling(b: nat, k: nat)
    ensures Shl(2 * b, k) == Shl(b, k + 1) && Shl(1, k) == Pow2(k)
  {
    if k == 0 {
    } else {
      Doubling(b, k - 1);
    }
  }

  function Shl(b: nat, k: nat): nat {
    if k == 0 then b else 2 * Shl(b, k - 1)
  }

  lemma {:induction false} FlipAligned(b: nat, k: nat)
    ensures Flip(Shl(2 * b, k), k) == Shl(2 * b + 1, k) == Shl(2 * b, k) + Pow2(k)
  {
    if k == 0 {
    } else {
      FlipAligned(b, k - 1);
    }
  }
}
