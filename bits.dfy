/**
 * C's `&` and `~` on `uint32_t`, stated over integers, and the facts about
 * masking with a power of two that the shader-binding-table arithmetic needs.
 */
module Bits {
  import opened VkTypes

  function Pow2(k: nat): (p: nat)
    ensures p >= 1
  {
    if k == 0 then 1 else 2 * Pow2(k - 1)
  }

  /** Bitwise and of two non-negative integers, one binary digit at a time. */
  function BitAnd(x: nat, y: nat): (r: nat)
    ensures r <= x && r <= y
    decreases x
  {
    if x == 0 || y == 0 then 0
    else 2 * BitAnd(x / 2, y / 2) + (if x % 2 == 1 && y % 2 == 1 then 1 else 0)
  }

  /** `~x` on a `uint32_t`. */
  function BitNot32(x: u32): u32
  {
    0xFFFF_FFFF - x
  }

  lemma {:induction false} Pow2Add(a: nat, b: nat)
    ensures Pow2(a + b) == Pow2(a) * Pow2(b)
  {
    if a > 0 {
      Pow2Add(a - 1, b);
    }
  }

  lemma Pow2Of32()
    ensures Pow2(32) == 0x1_0000_0000
  {
    assert Pow2(8) == 0x100;
    Pow2Add(8, 8);
    Pow2Add(16, 16);
  }

  lemma {:induction false} Pow2Monotone(j: nat, k: nat)
    requires j <= k
    ensures Pow2(j) <= Pow2(k)
  {
    if j < k {
      Pow2Monotone(j, k - 1);
    }
  }

  /** A positive multiple of a positive number is at least that number. */
  lemma MulAtLeast(m: int, d: int)
    requires m > 0 && d >= 1
    ensures m * d >= m
  {
  }

  /** Quotient and remainder are the unique pair with `n == m * q + c` and `0 <= c < m`. */
  lemma DivModUnique(n: int, m: int, q: int, c: int)
    requires m > 0 && 0 <= c < m && n == m * q + c
    ensures n % m == c && n / m == q
  {
    var q', c' := n / m, n % m;
    assert m * (q - q') == c' - c;
    if q > q' {
      MulAtLeast(m, q - q');
    } else if q < q' {
      MulAtLeast(m, q' - q);
    }
  }

  /** The low `k` bits of `n` are its lowest bit plus the low `k - 1` bits of `n / 2`, shifted. */
  lemma {:induction false} ModHalf(n: nat, k: nat)
    requires k > 0
    ensures n % Pow2(k) == 2 * ((n / 2) % Pow2(k - 1)) + n % 2
  {
    var m := Pow2(k - 1);
    var q := n / 2;
    var a, b := q / m, q % m;
    assert q == m * a + b;
    assert n == Pow2(k) * a + (2 * b + n % 2);
    DivModUnique(n, Pow2(k), a, 2 * b + n % 2);
  }

  /** Masking with `w` one-bits keeps every `w`-bit number. */
  lemma {:induction false} AndAllOnes(n: nat, w: nat)
    requires n < Pow2(w)
    ensures BitAnd(n, Pow2(w) - 1) == n
  {
    if w > 0 && n > 0 {
      AndAllOnes(n / 2, w - 1);
    }
  }

  /**
   * Masking a `w`-bit number with ones in bits `k .. w - 1` and zeros below
   * clears exactly its remainder modulo `2^k`: it rounds down to a multiple of `2^k`.
   */
  lemma {:induction false} AndHighMask(n: nat, w: nat, k: nat)
    requires k <= w && n < Pow2(w)
    ensures Pow2(k) <= Pow2(w)
    ensures BitAnd(n, Pow2(w) - Pow2(k)) == n - n % Pow2(k)
  {
    Pow2Monotone(k, w);
    if k == 0 {
      AndAllOnes(n, w);
      DivModUnique(n, 1, n, 0);
    } else if k == w {
      AndHighMaskEmpty(n, k);
    } else if n > 0 {
      AndHighMask(n / 2, w - 1, k - 1);
      AndHighMaskStep(n, w, k);
    } else {
      DivModUnique(0, Pow2(k), 0, 0);
    }
  }

  /** With no one-bits in the mask, the result is zero, and so is `n` rounded down to a multiple of `2^k`. */
  lemma AndHighMaskEmpty(n: nat, k: nat)
    requires n < Pow2(k)
    ensures BitAnd(n, Pow2(k) - Pow2(k)) == n - n % Pow2(k)
  {
    DivModUnique(n, Pow2(k), 0, n);
  }

  /** The inductive step of `AndHighMask`: one binary digit of `n` and of the mask. */
  lemma AndHighMaskStep(n: nat, w: nat, k: nat)
    requires 0 < k < w && 0 < n < Pow2(w)
    requires Pow2(k - 1) <= Pow2(w - 1)
    requires BitAnd(n / 2, Pow2(w - 1) - Pow2(k - 1)) == n / 2 - (n / 2) % Pow2(k - 1)
    ensures BitAnd(n, Pow2(w) - Pow2(k)) == n - n % Pow2(k)
  {
    var half, p := Pow2(w - 1), Pow2(k - 1);
    Pow2Monotone(k, w - 1);
    var mask := Pow2(w) - Pow2(k);
    assert mask == 2 * (half - p) && half - p > 0;
    assert mask / 2 == half - p && mask % 2 == 0;
    var upper := BitAnd(n / 2, half - p);
    assert BitAnd(n, mask) == 2 * upper;
    ModHalf(n, k);
    var lowHalf, low := (n / 2) % p, n % Pow2(k);
    assert upper == n / 2 - lowHalf && low == 2 * lowHalf + n % 2;
    assert 2 * upper == n - low;
  }

  /** Rounding down to a multiple leaves a multiple. */
  lemma RoundedDownIsMultiple(n: nat, m: nat)
    requires m > 0
    ensures (n - n % m) % m == 0 && n % m < m
  {
    DivModUnique(n - n % m, m, n / m, 0);
  }
}
