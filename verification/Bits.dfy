/** Python's integer bit operations that the checksums use. */
module Bits {

  /** `x | y` on unbounded two's complement integers. */
  function Or(x: int, y: int): int
    decreases (if x < 0 then -x else x) + (if y < 0 then -y else y)
  {
    if (x == 0 || x == -1) && (y == 0 || y == -1) then
      if x == 0 && y == 0 then 0 else -1
    else
      2 * Or(x / 2, y / 2) + if x % 2 == 1 || y % 2 == 1 then 1 else 0
  }

  function Pow2(n: nat): (p: nat)
    ensures p > 0
  {
    if n == 0 then 1 else 2 * Pow2(n - 1)
  }

  /** Two fields that do not overlap are joined by `|` without carries. */
  lemma {:induction false} OrOfDisjointFields(hi: nat, lo: nat, n: nat)
    requires lo < Pow2(n)
    ensures Or(hi * Pow2(n), lo) == hi * Pow2(n) + lo
  {
    if n == 0 {
      OrZero(hi);
    } else if hi == 0 {
      OrZeroLeft(lo);
    } else {
      var h := hi * Pow2(n - 1);
      assert hi * Pow2(n) == 2 * h;
      OrOfDisjointFields(hi, lo / 2, n - 1);
      assert (2 * h) / 2 == h && (2 * h) % 2 == 0;
      assert h > 0;
    }
  }

  lemma SixteenBitFields(hi: nat, lo: nat)
    requires lo < 0x10000
    ensures Or(hi * 0x10000, lo) == hi * 0x10000 + lo
  {
    assert Pow2(4) == 16 && Pow2(8) == 256 && Pow2(12) == 4096 && Pow2(16) == 0x10000;
    OrOfDisjointFields(hi, lo, 16);
  }

  lemma OrZero(x: nat)
    ensures Or(x, 0) == x
  {
  }

  lemma OrZeroLeft(x: nat)
    ensures Or(0, x) == x
  {
  }
}
