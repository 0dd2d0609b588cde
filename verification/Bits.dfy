/** Machine arithmetic written out on integers: little-endian numbers, powers of two, bitwise AND, 32-bit shifts. */
module Bits {
  const TWO_32 := 0x1_0000_0000
  const TWO_31 := 0x8000_0000

  type uint32 = x: int | 0 <= x < 0x1_0000_0000
  type byte = x: int | 0 <= x < 256

  // ---- little-endian numbers ---------------------------------------------------------------------------

  function Unsigned16(b: seq<byte>): nat
    requires |b| >= 2
  {
    (b[0] as nat) + 256 * (b[1] as nat)
  }

  function Unsigned32(b: seq<byte>): nat
    requires |b| >= 4
  {
    Unsigned16(b) + 0x1_0000 * Unsigned16(b[2..])
  }

  // ---- words --------------------------------------------------------------------------------------------

  function Pow2(k: nat): (r: nat)
    ensures r >= 1
  {
    if k == 0 then 1 else 2 * Pow2(k - 1)
  }

  /** `x & y`, one bit at a time. */
  function And(x: nat, y: nat): nat {
    if x == 0 || y == 0 then 0
    else 2 * And(x / 2, y / 2) + (if x % 2 == 1 && y % 2 == 1 then 1 else 0)
  }

  /** Reducing to 32 bits, as `x >>> 0` does. */
  function ToUint32(x: int): nat {
    x % TWO_32
  }

  /** `x << 1` on a signed 32-bit word. */
  function ShiftLeftOnce(x: int): int {
    var low := ToUint32(2 * x);
    if low >= TWO_31 then low - TWO_32 else low
  }

  lemma MulSign(d: int, m: nat)
    ensures d >= 1 ==> d * m >= m
    ensures d <= -1 ==> d * m <= -(m as int)
  {
    if d >= 1 {
      assert d * m == (d - 1) * m + m;
    } else if d <= -1 {
      assert d * m == (d + 1) * m - m;
      assert (-(d + 1)) * m >= 0;
    }
  }

  lemma DivModUnique(x: nat, m: nat, q: nat, r: nat)
    requires x == q * m + r && r < m
    ensures x % m == r && x / m == q
  {
    var d := x / m - q;
    assert x == (x / m) * m + x % m;
    assert d * m == r - x % m;
    MulSign(d, m);
  }

  lemma ModHalves(x: nat, p: nat)
    requires p >= 1
    ensures x % (2 * p) == 2 * ((x / 2) % p) + x % 2
  {
    var q, r := (x / 2) / p, (x / 2) % p;
    assert x / 2 == q * p + r;
    assert 2 * (q * p) == q * (2 * p);
    DivModUnique(x, 2 * p, q, 2 * r + x % 2);
  }

  lemma AndStep(x: nat, y: nat)
    requires y % 2 == 1
    ensures And(x, y) == 2 * And(x / 2, y / 2) + x % 2
  {
  }

  lemma HalfOfOdd(p: nat)
    requires p >= 1
    ensures (2 * p - 1) / 2 == p - 1 && (2 * p - 1) % 2 == 1
  {
  }

  lemma MaskNothing(x: nat)
    ensures And(x, Pow2(0) - 1) == x % Pow2(0)
  {
  }

  /** Masking with a power of two less one is taking the remainder. */
  lemma {:induction false} AndMask(x: nat, k: nat)
    ensures And(x, Pow2(k) - 1) == x % Pow2(k)
  {
    if k == 0 {
      MaskNothing(x);
    } else {
      var p := Pow2(k - 1);
      assert Pow2(k) == 2 * p;
      hide *;
      AndMask(x / 2, k - 1);
      AndStep(x, 2 * p - 1);
      HalfOfOdd(p);
      ModHalves(x, p);
    }
  }

  lemma Pow2Grows(j: nat, k: nat)
    requires j <= k
    ensures Pow2(j) <= Pow2(k)
  {
    if j < k {
      Pow2Grows(j, k - 1);
    }
  }

  lemma Pow2Values()
    ensures Pow2(4) == 16 && Pow2(16) == 0x1_0000 && Pow2(30) == 0x4000_0000
  {
    assert Pow2(8) == 256;
    assert Pow2(12) == 4096;
    assert Pow2(20) == 0x10_0000;
    assert Pow2(24) == 0x100_0000;
    assert Pow2(28) == 0x1000_0000;
  }
}
