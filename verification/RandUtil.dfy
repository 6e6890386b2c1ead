/**
  base/rand_util.cc: numbers in a range from 64-bit random draws, by rejecting the draws that
  would favour some results. The draws are given as a sequence.
*/
module RandUtil {
  import opened Common

  const UINT64_MAX: nat := 0xFFFF_FFFF_FFFF_FFFF
  const INT_MIN: int := -0x8000_0000

  /** How many draws are accepted: the largest multiple of range that is at most UINT64_MAX. */
  function Acceptable(range: nat): (n: nat)
    requires 0 < range <= UINT64_MAX
  {
    UINT64_MAX / range * range
  }

  lemma {:induction false} AcceptableIs(range: nat)
    requires 0 < range <= UINT64_MAX
    ensures UINT64_MAX - range < Acceptable(range) <= UINT64_MAX && range <= Acceptable(range)
  {
    var q := UINT64_MAX / range;
    assert q >= 1;
    assert UINT64_MAX == q * range + UINT64_MAX % range;
    if q >= 1 {
      MultiplyGrows(q, range);
    }
  }

  lemma {:induction false} MultiplyGrows(q: nat, range: nat)
    requires q >= 1
    ensures q * range >= range
  {
  }

  /** RandGenerator, and the position of the draw used. One of the draws is accepted; the loop
      ends at the first such. */
  method RandGenerator(range: nat, draws: seq<nat>) returns (result: nat, used: nat)
    requires 0 < range <= UINT64_MAX
    requires exists i :: 0 <= i < |draws| && draws[i] < Acceptable(range)
    ensures used < |draws| && draws[used] < Acceptable(range)
    ensures forall i :: 0 <= i < used ==> draws[i] >= Acceptable(range)
    ensures result == draws[used] % range < range
  {
    AcceptableIs(range);
    var maxAcceptableValue := UINT64_MAX / range * range - 1;
    used := 0;
    var value := draws[used];
    while value > maxAcceptableValue
      invariant used < |draws| && value == draws[used]
      invariant forall i :: 0 <= i < used ==> draws[i] >= Acceptable(range)
      decreases |draws| - used
    {
      used := used + 1;
      value := draws[used];
    }
    result := value % range;
  }

  /** The draws below n that give a residue. */
  function Hits(n: nat, range: nat, residue: nat): set<int>
    requires range > 0
  {
    set v | 0 <= v < n && v % range == residue
  }

  lemma {:induction false} ResidueOf(q: nat, range: nat, v: nat)
    requires range > 0 && q * range <= v < q * range + range
    ensures v % range == v - q * range
  {
    var r := v - q * range;
    assert v == q * range + r;
    Unique(v / range, v % range, q, r, range);
  }

  lemma {:induction false} Unique(q1: int, r1: int, q2: int, r2: int, range: int)
    requires range > 0 && 0 <= r1 < range && 0 <= r2 < range && q1 * range + r1 == q2 * range + r2
    ensures q1 == q2 && r1 == r2
  {
    var d := q1 - q2;
    Distributes(q1, q2, range);
    if d >= 1 {
      MultiplyGrows(d, range);
    } else if d <= -1 {
      Distributes(0, d, range);
      MultiplyGrows(-d, range);
    }
  }

  lemma {:induction false} Distributes(a: int, b: int, n: int)
    ensures (a - b) * n == a * n - b * n
  {
  }

  /** Below q times the range, each residue is hit exactly q times. */
  lemma {:induction false} EachResidueIsHit(q: nat, range: nat, residue: nat)
    requires residue < range
    ensures |Hits(q * range, range, residue)| == q
    decreases q
  {
    if q == 0 {
      assert Hits(0, range, residue) == {};
    } else {
      var before := (q - 1) * range;
      EachResidueIsHit(q - 1, range, residue);
      assert q * range == before + range;
      var hit := before + residue;
      forall v ensures v in Hits(q * range, range, residue) <==> v in Hits(before, range, residue) + {hit} {
        if before <= v < before + range {
          ResidueOf(q - 1, range, v);
        }
      }
      assert Hits(q * range, range, residue) == Hits(before, range, residue) + {hit};
      assert hit !in Hits(before, range, residue);
    }
  }

  /** Every result is equally likely: each residue has the same number of accepted draws, and
      at least half of all draws are accepted. */
  lemma {:induction false} GeneratorIsUniform(range: nat, residue: nat)
    requires residue < range <= UINT64_MAX
    ensures |Hits(Acceptable(range), range, residue)| == UINT64_MAX / range
    ensures 2 * Acceptable(range) >= TWO64
  {
    EachResidueIsHit(UINT64_MAX / range, range, residue);
    AcceptableIs(range);
  }

  /** static_cast<uint64_t> of an int */
  function Unsigned64(x: int): nat
    requires INT_MIN <= x <= INT_MAX
  {
    if x < 0 then x + TWO64 else x
  }

  /** static_cast<uint64_t>(max) - min + 1, modulo 2^64 */
  function Range(min: int, max: int): nat
    requires INT_MIN <= min <= max <= INT_MAX
  {
    (Unsigned64(max) - Unsigned64(min) + 1) % TWO64
  }

  lemma {:induction false} RangeIs(min: int, max: int)
    requires INT_MIN <= min <= max <= INT_MAX
    ensures Range(min, max) == max - min + 1
  {
  }

  /** RandInt */
  method RandInt(min: int, max: int, draws: seq<nat>) returns (result: int, used: nat)
    requires INT_MIN <= min <= max <= INT_MAX
    requires exists i :: 0 <= i < |draws| && draws[i] < Acceptable(max - min + 1)
    ensures used < |draws| && draws[used] < Acceptable(max - min + 1)
    ensures forall i :: 0 <= i < used ==> draws[i] >= Acceptable(max - min + 1)
    ensures min <= result <= max && result == IntOf(min, max, draws[used])
  {
    RangeIs(min, max);
    var range := Range(min, max);
    var value;
    value, used := RandGenerator(range, draws);
    result := min + value;
  }

  /** The result of a draw. */
  function IntOf(min: int, max: int, draw: nat): int
    requires min <= max
  {
    min + draw % (max - min + 1)
  }

  /** RandInt is exactly uniform on the range, for every range of ints: each value is the
      result of the same number of accepted draws. */
  lemma {:induction false} RandIntIsUniform(min: int, max: int, x: int)
    requires INT_MIN <= min <= x <= max <= INT_MAX
    ensures |set v: int | 0 <= v < Acceptable(max - min + 1) && IntOf(min, max, v) == x| == UINT64_MAX / (max - min + 1)
    ensures 2 * Acceptable(max - min + 1) >= TWO64
  {
    var range := max - min + 1;
    GeneratorIsUniform(range, x - min);
    assert (set v: int | 0 <= v < Acceptable(range) && IntOf(min, max, v) == x) == Hits(Acceptable(range), range, x - min);
  }

  /** Below any n, the residues under n % range have one hit more than the others. */
  lemma {:induction false} HitsBelow(n: nat, range: nat, residue: nat)
    requires residue < range
    ensures |Hits(n, range, residue)| == n / range + if residue < n % range then 1 else 0
  {
    var q := n / range;
    var whole := q * range;
    assert n == whole + n % range;
    EachResidueIsHit(q, range, residue);
    var last := whole + residue;
    forall v ensures v in Hits(n, range, residue) <==>
                     v in Hits(whole, range, residue) || (v == last && residue < n % range)
    {
      if whole <= v < n {
        ResidueOf(q, range, v);
      }
      if v == last {
        ResidueOf(q, range, v);
      }
    }
    if residue < n % range {
      assert Hits(n, range, residue) == Hits(whole, range, residue) + {last};
    } else {
      assert Hits(n, range, residue) == Hits(whole, range, residue);
    }
  }

  /** Without the rejection, all 64-bit draws would hit every residue equally often exactly if
      the range divides 2^64. */
  lemma {:induction false} UniformWithoutRejectionIff(range: nat)
    requires 0 < range
    ensures (forall r: nat, s: nat :: r < range && s < range ==> |Hits(TWO64, range, r)| == |Hits(TWO64, range, s)|)
            <==> TWO64 % range == 0
  {
    forall r: nat | r < range
      ensures |Hits(TWO64, range, r)| == TWO64 / range + if r < TWO64 % range then 1 else 0
    {
      HitsBelow(TWO64, range, r);
    }
    if TWO64 % range != 0 {
      var first, last: nat := 0, range - 1;
      assert |Hits(TWO64, range, first)| != |Hits(TWO64, range, last)|;
    }
  }
}
