/**
 * Unsigned 32-bit arithmetic as the engine performs it: `IsPowerOf2` and
 * `Align` (Engine/Code/engine.cpp), with the bitwise `&` and `~` of C++
 * written out over natural numbers so that they can be reasoned about
 * arithmetically.
 */
module Bits {

  /** The values of a C++ `u32`. */
  type u32 = x: int | 0 <= x < 0x1_0000_0000

  const UINT32_MAX: u32 := 0xFFFF_FFFF

  /** Reduction modulo 2^32: what a `u32` keeps of an integer result. */
  function Wrap32(x: int): (r: u32)
  {
    x % 0x1_0000_0000
  }

  /** `~x` on a 32-bit unsigned value. */
  function Not32(x: u32): (r: u32)
  {
    UINT32_MAX - x
  }

  /** `x & y`, bit by bit from the least significant bit. */
  function BitAnd(x: nat, y: nat): (r: nat)
    ensures r <= x && r <= y
  {
    if x == 0 || y == 0 then 0
    else 2 * BitAnd(x / 2, y / 2) + (if x % 2 == 1 && y % 2 == 1 then 1 else 0)
  }

  function Pow2(k: nat): (r: nat)
    ensures r >= 1
  {
    if k == 0 then 1 else 2 * Pow2(k - 1)
  }

  /** The number of bits set in `v`. */
  function BitCount(v: nat): nat
  {
    if v == 0 then 0 else v % 2 + BitCount(v / 2)
  }

  /** The position of the highest bit set in `v` (0 for 0 and 1). */
  function Log2(v: nat): nat
  {
    if v <= 1 then 0 else 1 + Log2(v / 2)
  }

  /** `value && !(value & (value - 1))` */
  function IsPowerOf2(value: u32): bool
  {
    value != 0 && BitAnd(value, value - 1) == 0
  }

  /** `(value + alignment - 1) & ~(alignment - 1)`, every step in u32 arithmetic. */
  function Align(value: u32, alignment: u32): u32
  {
    BitAnd(Wrap32(value + alignment - 1), Not32(Wrap32(alignment - 1)))
  }

  // ---------------------------------------------------------------------------
  // Bit-level facts

  lemma {:induction false} BitAndSelf(x: nat)
    ensures BitAnd(x, x) == x
  {
    if x != 0 {
      BitAndSelf(x / 2);
    }
  }

  lemma {:induction false} BitCountPositive(v: nat)
    requires v >= 1
    ensures BitCount(v) >= 1
  {
    if v % 2 == 0 {
      BitCountPositive(v / 2);
    }
  }

  /** `IsPowerOf2(v)` holds exactly when `v` has one bit set (and so is nonzero). */
  lemma {:induction false} IsPowerOf2IffOneBitSet(v: u32)
    ensures IsPowerOf2(v) <==> v != 0 && BitCount(v) == 1
  {
    if v == 0 || v == 1 {
    } else if v % 2 == 1 {
      // v & (v - 1) == 2 * ((v / 2) & (v / 2)) == v - 1 != 0
      assert (v - 1) / 2 == v / 2;
      BitAndSelf(v / 2);
      BitCountPositive(v / 2);
    } else {
      // v & (v - 1) == 2 * ((v / 2) & (v / 2 - 1))
      assert (v - 1) / 2 == v / 2 - 1 && (v - 1) % 2 == 1;
      IsPowerOf2IffOneBitSet(v / 2);
    }
  }

  lemma {:induction false} Pow2Monotone(j: nat, k: nat)
    requires j <= k
    ensures Pow2(j) <= Pow2(k)
  {
    if j < k {
      Pow2Monotone(j, k - 1);
    }
  }

  lemma {:induction false} Pow2Add(j: nat, k: nat)
    ensures Pow2(j + k) == Pow2(j) * Pow2(k)
  {
    if j > 0 {
      Pow2Add(j - 1, k);
    }
  }

  lemma Pow2Unrolled()
    ensures Pow2(32) == 0x1_0000_0000
  {
    assert Pow2(2) == 4;
    Pow2Add(2, 2);
    Pow2Add(4, 4);
    Pow2Add(8, 8);
    Pow2Add(16, 16);
  }

  /** A power of two has no bit in common with its predecessor. */
  lemma {:induction false} Pow2LowBitsClear(k: nat)
    ensures BitAnd(Pow2(k), Pow2(k) - 1) == 0
  {
    if k > 0 {
      Pow2LowBitsClear(k - 1);
      var w := Pow2(k - 1);
      assert (2 * w) / 2 == w && (2 * w) % 2 == 0 && (2 * w - 1) / 2 == w - 1;
    }
  }

  /** Powers of two below 2^32 fit in a `u32`. */
  lemma Pow2Fits(k: nat)
    requires k < 32
    ensures Pow2(k) <= UINT32_MAX
  {
    Pow2Monotone(k, 31);
    Pow2Unrolled();
    assert Pow2(32) == 2 * Pow2(31);
  }

  /** Every power of two below 2^32 passes the test. */
  lemma IsPowerOf2OfPow2(k: nat)
    requires k < 32
    ensures Pow2(k) <= UINT32_MAX && IsPowerOf2(Pow2(k))
  {
    Pow2Fits(k);
    Pow2LowBitsClear(k);
  }

  /** Every value that passes the test is a power of two below 2^32. */
  lemma {:induction false} PowerOf2IsPow2(v: u32)
    requires IsPowerOf2(v)
    ensures Log2(v) < 32 && v == Pow2(Log2(v))
  {
    if v != 1 {
      if v % 2 == 1 {
        assert (v - 1) / 2 == v / 2;
        BitAndSelf(v / 2);
        assert false;
      }
      assert (v - 1) / 2 == v / 2 - 1 && (v - 1) % 2 == 1;
      PowerOf2IsPow2(v / 2);
      if Log2(v / 2) + 1 >= 32 {
        Pow2Monotone(32, Log2(v / 2) + 1);
        Pow2Unrolled();
        assert false;
      }
    }
  }

  // ---------------------------------------------------------------------------
  // Division facts used below

  lemma {:induction false} MulNonNegative(a: int, b: int)
    requires a >= 0 && b >= 0
    ensures a * b >= 0
  {
    if b > 0 {
      MulNonNegative(a, b - 1);
    }
  }

  lemma ModUnique(x: int, m: int, q: int, r: int)
    requires m > 0 && 0 <= r < m && x == m * q + r
    ensures x / m == q && x % m == r
  {
    var q', r' := x / m, x % m;
    if q' < q {
      MulNonNegative(m, q - q' - 1);
      assert false;
    } else if q' > q {
      MulNonNegative(m, q' - q - 1);
      assert false;
    }
  }

  /** The remainder modulo `2 * p` is the low bit followed by the remainder of `x / 2` modulo `p`. */
  lemma ModDoubleSplit(x: nat, p: nat)
    requires p >= 1
    ensures x % (2 * p) == 2 * ((x / 2) % p) + x % 2
  {
    var q := x / 2;
    assert q == p * (q / p) + q % p;
    assert x == (2 * p) * (q / p) + (2 * (q % p) + x % 2);
    ModUnique(x, 2 * p, q / p, 2 * (q % p) + x % 2);
  }

  /** A multiple of a multiple of `a` is a multiple of `a`. */
  lemma MultipleOfMultiple(m: int, a: int, k: nat)
    requires a > 0 && m % a == 0
    ensures (k * m) % a == 0
  {
    var q := m / a;
    assert m == a * q;
    assert k * m == a * (k * q);
    ModUnique(k * m, a, k * q, 0);
  }

  /** `x - x % a` is a multiple of `a` no greater than `x` and above `x - a`. */
  lemma RoundDown(x: int, a: int)
    requires a > 0
    ensures (x - x % a) % a == 0 && x - a < x - x % a <= x
  {
    ModUnique(x - x % a, a, x / a, 0);
  }

  lemma MultiplesGap(x: int, y: int, a: int)
    requires a > 0 && x % a == 0 && y % a == 0 && x < y
    ensures x + a <= y
  {
    var p, q := x / a, y / a;
    assert x == a * p && y == a * q;
    if q <= p {
      MulNonNegative(a, p - q);
      assert false;
    }
    MulNonNegative(a, q - p - 1);
  }

  /**
   * `x & (2^n - 2^k)` for `x < 2^n` clears the low `k` bits of `x`: it is
   * `x` rounded down to a multiple of `2^k`. The powers are passed as `N`
   * and `P` alongside their exponents.
   */
  lemma {:induction false} MaskLowBits(x: nat, n: nat, k: nat, N: nat, P: nat)
    requires k <= n && N == Pow2(n) && P == Pow2(k) && x < N
    ensures P <= N && BitAnd(x, N - P) == x - x % P
  {
    Pow2Monotone(k, n);
    if x == 0 {
      ModUnique(0, P, 0, 0);
    } else if k == n {
      ModUnique(x, P, 0, x);
    } else if k == 0 {
      // the mask N - 1 is odd and keeps every bit of x
      var N1 := Pow2(n - 1);
      MaskLowBits(x / 2, n - 1, 0, N1, 1);
      ModUnique(x / 2, 1, x / 2, 0);
      ModUnique(x, 1, x, 0);
      OddMaskStep(x, N, N1);
    } else {
      Pow2Monotone(k, n - 1);
      var N1, P1 := Pow2(n - 1), Pow2(k - 1);
      MaskLowBits(x / 2, n - 1, k - 1, N1, P1);
      EvenMaskStep(x, N, P, N1, P1);
    }
  }

  /** One step of BitAnd against a nonzero mask whose low bit is `low`. */
  lemma MaskStep(x: nat, mask: nat, low: nat, rest: nat)
    requires x > 0 && mask > 0 && low < 2 && mask == 2 * rest + low
    ensures BitAnd(x, mask) == 2 * BitAnd(x / 2, rest) + (if x % 2 == 1 && low == 1 then 1 else 0)
  {
  }

  /** The inductive step of MaskLowBits for the odd mask `n - 1`: every bit of `x` is kept. */
  lemma OddMaskStep(x: nat, n: nat, n1: nat)
    requires x > 0 && n == 2 * n1 && n1 >= 1
    requires BitAnd(x / 2, n1 - 1) == x / 2
    ensures BitAnd(x, n - 1) == x
  {
    MaskStep(x, n - 1, 1, n1 - 1);
  }

  /**
   * The inductive step of MaskLowBits for an even mask `n - p`: the low bit
   * of `x` is cleared and the rest is `x / 2` against the halved mask.
   */
  lemma EvenMaskStep(x: nat, n: nat, p: nat, n1: nat, p1: nat)
    requires x > 0 && n == 2 * n1 && p == 2 * p1 && 1 <= p1 <= n1 && p < n
    requires BitAnd(x / 2, n1 - p1) == x / 2 - (x / 2) % p1
    ensures BitAnd(x, n - p) == x - x % p
  {
    MaskStep(x, n - p, 0, n1 - p1);
    ModDoubleSplit(x, p1);
  }

  // ---------------------------------------------------------------------------
  // Align

  /**
   * The least multiple of `alignment` at or above `value`, computed with
   * division instead of a bit mask.
   */
  function RoundUp(value: int, alignment: int): int
    requires alignment > 0
  {
    (value + alignment - 1) - (value + alignment - 1) % alignment
  }

  /** RoundUp gives a multiple of `alignment` in `[value, value + alignment)`. */
  lemma RoundUpBounds(value: int, alignment: int)
    requires alignment > 0
    ensures RoundUp(value, alignment) % alignment == 0
    ensures value <= RoundUp(value, alignment) < value + alignment
  {
    RoundDown(value + alignment - 1, alignment);
  }

  /** A multiple of `alignment` in `[value, value + alignment)` is what RoundUp gives. */
  lemma RoundUpUnique(value: int, alignment: int, r: int)
    requires alignment > 0 && r % alignment == 0 && value <= r < value + alignment
    ensures RoundUp(value, alignment) == r
  {
    var x := value + alignment - 1;
    ModUnique(x, alignment, r / alignment, x - r);
  }

  /**
   * Without overflow and for a power-of-two alignment, the bit formula of
   * Align rounds `value + alignment - 1` down to a multiple of `alignment`.
   */
  lemma AlignArithmetic(value: u32, alignment: u32)
    requires IsPowerOf2(alignment) && value + alignment - 1 <= UINT32_MAX
    ensures Align(value, alignment) == RoundUp(value, alignment)
  {
    PowerOf2IsPow2(alignment);
    Pow2Unrolled();
    var x, k := value + alignment - 1, Log2(alignment);
    assert Wrap32(x) == x;
    assert Not32(Wrap32(alignment - 1)) == Pow2(32) - Pow2(k);
    MaskLowBits(x, 32, k, Pow2(32), Pow2(k));
  }

  /** Align gives a multiple of the alignment in `[value, value + alignment)`. */
  lemma AlignRoundsUp(value: u32, alignment: u32)
    requires IsPowerOf2(alignment) && value + alignment - 1 <= UINT32_MAX
    ensures Align(value, alignment) % alignment == 0
    ensures value <= Align(value, alignment) < value + alignment
  {
    AlignArithmetic(value, alignment);
    RoundUpBounds(value, alignment);
  }

  /** No multiple of the alignment at or above `value` lies below Align(value, alignment). */
  lemma AlignIsLeast(value: u32, alignment: u32, m: int)
    requires IsPowerOf2(alignment) && value + alignment - 1 <= UINT32_MAX
    requires m % alignment == 0 && value <= m
    ensures Align(value, alignment) <= m
  {
    AlignRoundsUp(value, alignment);
    if m < Align(value, alignment) {
      MultiplesGap(m, Align(value, alignment), alignment);
    }
  }

  /** Align(value, alignment) is the only multiple of the alignment in `[value, value + alignment)`. */
  lemma AlignUnique(value: u32, alignment: u32, r: int)
    requires IsPowerOf2(alignment) && value + alignment - 1 <= UINT32_MAX
    requires r % alignment == 0 && value <= r < value + alignment
    ensures Align(value, alignment) == r
  {
    AlignRoundsUp(value, alignment);
    AlignIsLeast(value, alignment, r);
    if Align(value, alignment) < r {
      MultiplesGap(Align(value, alignment), r, alignment);
    }
  }

  /** Aligning an aligned value changes nothing. */
  lemma AlignIdempotent(value: u32, alignment: u32)
    requires IsPowerOf2(alignment) && value + alignment - 1 <= UINT32_MAX
    ensures Align(Align(value, alignment), alignment) == Align(value, alignment)
  {
    var aligned := Align(value, alignment);
    AlignRoundsUp(value, alignment);
    // 2^32 is a multiple of the alignment, so aligning again cannot overflow.
    PowerOf2IsPow2(alignment);
    var k := Log2(alignment);
    Pow2Add(k, 32 - k);
    Pow2Unrolled();
    ModUnique(Pow2(32), alignment, Pow2(32 - k), 0);
    MultiplesGap(aligned, Pow2(32), alignment);
    AlignUnique(aligned, alignment, aligned);
  }

  /** A power of two divides every power of two that is at least as large. */
  lemma PowerOf2Divides(a: u32, b: u32)
    requires IsPowerOf2(a) && IsPowerOf2(b) && a <= b
    ensures b % a == 0
  {
    PowerOf2IsPow2(a);
    PowerOf2IsPow2(b);
    var i, j := Log2(a), Log2(b);
    if j < i {
      Pow2Monotone(j + 1, i);
      assert false;
    }
    Pow2Add(i, j - i);
    ModUnique(b, a, Pow2(j - i), 0);
  }
}
