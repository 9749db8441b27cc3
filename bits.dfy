/**
 * Bitwise AND and complement on unsigned integers, defined arithmetically, and the facts
 * about power-of-two masks that the alignment round-up relies on.
 */
module Bits {
  import opened Vulkan

  function Pow2(n: nat): (r: nat)
    ensures r >= 1
  {
    if n == 0 then 1 else 2 * Pow2(n - 1)
  }

  predicate IsPow2(a: nat)
  {
    exists k: nat :: k < 64 && Pow2(k) == a
  }

  /** `x & y`, bit by bit from the least significant end; never more than either operand. */
  function BitAnd(x: nat, y: nat): (r: nat)
    ensures r <= x && r <= y
    decreases x
  {
    if x == 0 || y == 0 then 0
    else 2 * BitAnd(x / 2, y / 2) + (if x % 2 == 1 && y % 2 == 1 then 1 else 0)
  }

  /** `~x` on a 64-bit value. */
  function Not64(x: u64): (r: u64)
    ensures r + x == UINT64_MAX
  {
    UINT64_MAX - x
  }

  lemma Pow2Of64()
    ensures Pow2(64) == U64_MODULUS
  {
    Pow2Of16();
    Pow2Add(16, 16);
    Pow2Add(32, 32);
  }

  lemma Pow2Of16()
    ensures Pow2(16) == 0x1_0000
  {
    assert Pow2(2) == 4;
    Pow2Add(2, 2);
    Pow2Add(4, 4);
    Pow2Add(8, 8);
  }

  lemma {:induction false} Pow2Add(m: nat, n: nat)
    ensures Pow2(m + n) == Pow2(m) * Pow2(n)
    decreases m
  {
    if m > 0 {
      Pow2Add(m - 1, n);
      assert Pow2(m + n) == 2 * Pow2(m - 1 + n);
    }
  }

  lemma {:induction false} Pow2Monotone(m: nat, n: nat)
    requires m <= n
    ensures Pow2(m) <= Pow2(n)
    decreases n
  {
    if m < n {
      Pow2Monotone(m, n - 1);
    }
  }

  /** A value below 2^n is unchanged by AND with the mask of the n low bits. */
  lemma {:induction false} AndLowOnes(x: nat, n: nat)
    requires x < Pow2(n)
    ensures BitAnd(x, Pow2(n) - 1) == x
    decreases n
  {
    if x != 0 {
      assert n > 0;
      assert (Pow2(n) - 1) / 2 == Pow2(n - 1) - 1 && (Pow2(n) - 1) % 2 == 1;
      AndLowOnes(x / 2, n - 1);
    }
  }

  lemma MulAtLeast(a: int, d: int)
    requires a >= 1 && d > 0
    ensures a * d >= d
  {
  }

  lemma MulDistributes(q: int, q': int, d: int)
    ensures q * d - q' * d == (q - q') * d
  {
  }

  lemma ModUnique(x: int, d: int, q: int, r: int)
    requires d > 0 && x == q * d + r && 0 <= r < d
    ensures x % d == r && x / d == q
  {
    var q' := x / d;
    var r' := x % d;
    assert x == q' * d + r';
    MulDistributes(q, q', d);
    if q > q' {
      MulAtLeast(q - q', d);
      assert false;
    } else if q' > q {
      MulAtLeast(q' - q, d);
      MulDistributes(q', q, d);
      assert false;
    }
  }

  /** Dropping the lowest bit: the remainder by 2P splits into the remainder of x/2 by P and x's low bit. */
  lemma ModDouble(x: nat, p: nat)
    requires p > 0
    ensures x % (2 * p) == 2 * ((x / 2) % p) + x % 2
  {
    var h := x / 2;
    var q := h / p;
    var r := h % p;
    assert h == q * p + r;
    assert x == 2 * h + x % 2;
    assert 2 * (q * p) == q * (2 * p);
    ModUnique(x, 2 * p, q, 2 * r + x % 2);
  }

  /**
   * AND with the mask whose bits k..n-1 are set clears the k low bits of a value below
   * 2^n: it rounds the value down to a multiple of 2^k.
   */
  /** The mask with bits k..n-1 set. */
  function HighMask(n: nat, k: nat): (m: nat)
    requires k <= n
    ensures m + Pow2(k) == Pow2(n)
  {
    Pow2Monotone(k, n);
    Pow2(n) - Pow2(k)
  }

  lemma HalveHighMask(n: nat, k: nat)
    requires 0 < k <= n
    ensures HighMask(n, k) % 2 == 0 && HighMask(n, k) / 2 == HighMask(n - 1, k - 1)
  {
  }

  lemma {:induction false} AndHighMask(x: nat, n: nat, k: nat)
    requires k <= n && x < Pow2(n)
    ensures BitAnd(x, HighMask(n, k)) == x - x % Pow2(k)
    decreases k
  {
    if k == 0 {
      AndLowOnes(x, n);
      ModUnique(x, 1, x, 0);
    } else if x == 0 {
      ModUnique(0, Pow2(k), 0, 0);
    } else if k == n {
      ModUnique(x, Pow2(n), 0, x);
    } else {
      HalveHighMask(n, k);
      Pow2Monotone(k, n - 1);
      AndHighMask(x / 2, n - 1, k - 1);
      AndEvenMask(x, HighMask(n, k), Pow2(k - 1));
    }
  }

  /** One step of the induction above: an even mask drops the low bit and halves both sides. */
  lemma AndEvenMask(x: nat, m: nat, p: nat)
    requires m > 0 && m % 2 == 0 && p > 0
    requires BitAnd(x / 2, m / 2) == x / 2 - (x / 2) % p
    ensures BitAnd(x, m) == x - x % (2 * p)
  {
    ModDouble(x, p);
    if x != 0 {
      assert BitAnd(x, m) == 2 * BitAnd(x / 2, m / 2);
    }
  }
}
