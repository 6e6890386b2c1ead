/** base/bits.h */
module Bits {
  import opened Common

  predicate PowerOfTwo(n: nat) {
    n == 1 || (n > 1 && n % 2 == 0 && PowerOfTwo(n / 2))
  }

  /** The bitwise and of two unsigned integers. */
  function And(x: nat, y: nat): nat
    decreases x
  {
    if x == 0 || y == 0 then 0
    else 2 * And(x / 2, y / 2) + if x % 2 == 1 && y % 2 == 1 then 1 else 0
  }

  /** Rounded up to the alignment, as arithmetic. If the sum wraps around in size_t nothing is
      left of it. For the alignments in use the modulus is spelled out. */
  function Align(size: nat, alignment: nat): (r: nat)
    requires size <= SIZE_MAX && alignment <= SIZE_MAX && PowerOfTwo(alignment)
    ensures if size + alignment - 1 <= SIZE_MAX then size <= r < size + alignment else r == 0
  {
    var sum := size + alignment - 1;
    if sum > SIZE_MAX then 0
    else if alignment == 4 then sum / 4 * 4
    else if alignment == 64 then sum / 64 * 64
    else if alignment == 4096 then sum / 4096 * 4096
    else LastMultiple(sum, alignment)
  }

  predicate Multiple(x: nat, a: nat)
    requires a > 0
  {
    x % a == 0
  }

  /** The last multiple of a up to x. */
  function LastMultiple(x: nat, a: nat): (r: nat)
    requires PowerOfTwo(a)
    ensures r <= x < r + a
    decreases a
  {
    if a == 1 then x else 2 * LastMultiple(x / 2, a / 2)
  }

  /** The sum of the source, in size_t. */
  function Sum(size: nat, alignment: nat): (r: nat)
    requires size <= SIZE_MAX && 0 < alignment <= SIZE_MAX
    ensures r == if size + alignment - 1 <= SIZE_MAX then size + alignment - 1 else size + alignment - 1 - TWO64
  {
    (size + alignment - 1) % TWO64
  }

  /** Align is what the source computes, where ~(alignment - 1) is 2^64 - alignment. */
  lemma AlignIsMaskedSum(size: nat, alignment: nat)
    requires size <= SIZE_MAX && alignment <= SIZE_MAX && PowerOfTwo(alignment)
    ensures Align(size, alignment) == And(Sum(size, alignment), TWO64 - alignment)
    ensures Multiple(Align(size, alignment), alignment)
  {
    AlignIsMultiple(size, alignment);
    WrappedOrNot(size, alignment, Sum(size, alignment), Align(size, alignment));
    hide *;
    MaskGives(Sum(size, alignment), alignment, Align(size, alignment));
  }

  lemma MaskGives(x: nat, a: nat, r: nat)
    requires PowerOfTwo(a) && a <= TWO64 && Multiple(r, a) && r <= x < r + a && x < TWO64
    ensures r == And(x, TWO64 - a)
  {
    SizeIsPowerOfTwo();
    MaskRoundsDown(x, a, TWO64);
    IsMultiple(x, a);
    OneMultiple(LastMultiple(x, a), r, x, a);
  }

  lemma WrappedOrNot(size: nat, alignment: nat, sum: nat, r: nat)
    requires size <= SIZE_MAX && 0 < alignment <= SIZE_MAX && sum == Sum(size, alignment)
    requires if size + alignment - 1 <= SIZE_MAX then size <= r < size + alignment else r == 0
    ensures r <= sum < r + alignment
  {
  }

  lemma AlignIsMultiple(size: nat, alignment: nat)
    requires size <= SIZE_MAX && alignment <= SIZE_MAX && PowerOfTwo(alignment)
    ensures Multiple(Align(size, alignment), alignment)
  {
    var n := size + alignment - 1;
    WholeUnits(n);
    IsMultiple(n, alignment);
    NothingIsMultiple(alignment);
    hide Multiple;
  }

  lemma WholeUnits(n: nat)
    ensures Multiple(n / 4 * 4, 4) && Multiple(n / 64 * 64, 64) && Multiple(n / 4096 * 4096, 4096)
  {
    MultipleOf(n / 4, 4);
    MultipleOf(n / 64, 64);
    MultipleOf(n / 4096, 4096);
  }

  lemma MultipleOf(q: nat, d: nat)
    requires d > 0
    ensures Multiple(q * d, d)
  {
    OneRemainder(d, q, q * d / d, q * d % d);
  }

  lemma NothingIsMultiple(d: nat)
    requires d > 0
    ensures Multiple(0, d)
  {
    MultipleOf(0, d);
  }

  /** Two multiples at most x and nearest to it are the same. */
  lemma OneMultiple(r: nat, s: nat, x: nat, a: nat)
    requires a > 0 && Multiple(r, a) && Multiple(s, a) && r <= x < r + a && s <= x < s + a
    ensures r == s
  {
    if r < s {
      OneRemainder(a, s / a, r / a, s - r);
    } else {
      OneRemainder(a, r / a, s / a, r - s);
    }
  }

  lemma SizeIsPowerOfTwo()
    ensures PowerOfTwo(TWO64)
  {
    assert PowerOfTwo(0x1_0000);
    SquareIsPowerOfTwo(0x1_0000);
    SquareIsPowerOfTwo(0x1_0000_0000);
  }

  lemma SquareIsPowerOfTwo(n: nat)
    requires PowerOfTwo(n)
    ensures PowerOfTwo(n * n)
  {
    ProductIsPowerOfTwo(n, n);
  }

  lemma {:induction false} ProductIsPowerOfTwo(m: nat, n: nat)
    requires PowerOfTwo(m) && PowerOfTwo(n)
    ensures PowerOfTwo(m * n)
    decreases m
  {
    if m > 1 {
      ProductIsPowerOfTwo(m / 2, n);
      DoubledProduct(m / 2, n);
      assert m == 2 * (m / 2);
      hide PowerOfTwo;
      PowerOfTwoDoubled(m / 2 * n);
    }
  }

  lemma DoubledProduct(k: nat, n: nat)
    ensures 2 * k * n == 2 * (k * n)
  {
  }

  lemma PowerOfTwoDoubled(n: nat)
    requires PowerOfTwo(n)
    ensures PowerOfTwo(2 * n)
  {
  }

  /** Below the power of two n, the mask n - a clears what a number has above its last
      multiple of a. */
  lemma {:induction false} MaskRoundsDown(x: nat, a: nat, n: nat)
    requires PowerOfTwo(a) && PowerOfTwo(n) && a <= n && x < n
    ensures And(x, n - a) == LastMultiple(x, a)
    decreases n
  {
    if a > 1 {
      MaskRoundsDown(x / 2, a / 2, n / 2);
    } else if n > 1 {
      MaskRoundsDown(x / 2, 1, n / 2);
    }
  }

  lemma {:induction false} IsMultiple(x: nat, a: nat)
    requires PowerOfTwo(a)
    ensures Multiple(LastMultiple(x, a), a)
    decreases a
  {
    if a > 1 {
      IsMultiple(x / 2, a / 2);
      DoubledMultiple(LastMultiple(x / 2, a / 2), a / 2);
    }
  }

  lemma DoubledMultiple(x: nat, h: nat)
    requires h > 0 && Multiple(x, h)
    ensures Multiple(2 * x, 2 * h)
  {
    var q := x / h;
    assert 2 * x == 2 * h * q;
    OneRemainder(2 * h, q, 2 * x / (2 * h), 2 * x % (2 * h));
  }

  lemma OneRemainder(d: int, q: int, k: int, r: int)
    requires d > 0 && d * q == d * k + r && 0 <= r < d
    ensures r == 0
  {
    Scaled(d, q - k);
    assert d * (q - k) == d * q - d * k;
  }

  lemma Scaled(d: int, n: int)
    requires d > 0
    ensures if n > 0 then d * n >= d else d * n <= 0
  {
  }
}
