/** The weak checksum of the block-delta engine (freezer/engine/rsyncv2/pyrsync.py). */
module Adler {
  import opened Bytes
  import opened Bits
  import opened ByteSums

  const BASE := 65521

  datatype Halves = Halves(s1: nat, s2: nat)

  /** Adler-32 as section 2.2 of RFC 1950 defines it: two running sums modulo 65521. */
  function Adler32(data: Data): (h: Halves)
  {
    if data == [] then Halves(1, 0)
    else
      var before := Adler32(data[..|data| - 1]);
      var s1 := (before.s1 + data[|data| - 1]) % BASE;
      Halves(s1, (before.s2 + s1) % BASE)
  }

  /** `((s2 << 16) | s1) & 0xffffffff`. */
  function Pack(h: Halves): int {
    Or(h.s2 * 0x10000, h.s1) % 0x1_0000_0000
  }

  /** `(checksum >> 16) & 0xffff, checksum & 0xffff`. */
  function Unpack(checksum: int): Halves {
    Halves(checksum % 0x10000, checksum / 0x10000 % 0x10000)
  }

  function Adler32Fast(data: Data): int {
    Pack(Adler32(data))
  }

  /** One step of the rolling form. */
  function Adler32Rolling(removed: Byte, added: Byte, h: Halves, blocksize: nat): Halves {
    var s1 := (h.s1 + added - removed) % BASE;
    Halves(s1, (h.s2 + s1 - Times(blocksize, removed) - 1) % BASE)
  }

  function RollAll(w: Data, bytes: Data, h: Halves): Halves
    requires w != []
  {
    if bytes == [] then h
    else
      var n := |bytes| - 1;
      Adler32Rolling(SlideAll(w, bytes[..n])[0], bytes[n], RollAll(w, bytes[..n], h), |w|)
  }

  /** Both halves are the unreduced sums modulo 65521. */
  lemma {:induction false} AdlerClosedForm(data: Data)
    ensures Adler32(data).s1 == (1 + Sum(data)) % BASE
    ensures Adler32(data).s2 == (|data| + Weighted(data)) % BASE
  {
    if data != [] {
      var p, x := data[..|data| - 1], data[|data| - 1];
      AdlerClosedForm(p);
      AddResidue(1 + Sum(p), x);
      AddResidue(|p| + Weighted(p), (1 + Sum(data)) % BASE);
      AddResidue(1 + Sum(data), |p| + Weighted(p));
    }
  }

  lemma AdlerOfThree(x: Byte, y: Byte, z: Byte)
    ensures Adler32([x, y, z]) == Halves(1 + x + y + z, 3 + 3 * x + 2 * y + z)
  {
    assert [x, y, z][..2] == [x, y] && [x, y][..1] == [x] && [x][..0] == [];
    assert Adler32([x]) == Halves(1 + x, 1 + x);
    assert Adler32([x, y]) == Halves(1 + x + y, 2 + 2 * x + y);
  }

  lemma NoSmallDivisor(x: nat)
    requires 2 <= x < 256
    ensures BASE % x != 0
  {
  }

  lemma MultipleOfBase(m: int)
    ensures Times(BASE, m) % BASE == 0
  {
    TimesIsProduct(BASE, m);
  }

  /** No byte but zero has a factor in common with 65521, which is prime. */
  lemma {:induction false} ByteIsCoprime(d: int, x: nat)
    requires 0 < x < 256 && (d * x) % BASE == 0
    ensures d % BASE == 0
    decreases x
  {
    if x > 1 {
      var q, r, k := BASE / x, BASE % x, d * x / BASE;
      NoSmallDivisor(x);
      Remainder(d, x, q, r, k);
      ByteIsCoprime(d, r);
    }
  }

  lemma Remainder(d: int, x: int, q: int, r: int, k: int)
    requires BASE == q * x + r && d * x == BASE * k
    ensures (d * r) % BASE == 0
  {
    calc {
      d * r;
      d * (BASE - q * x);
      d * BASE - q * (d * x);
      d * BASE - q * (BASE * k);
      BASE * (d - q * k);
    }
    TimesIsProduct(BASE, d - q * k);
    MultipleOfBase(d - q * k);
  }

  lemma MultipleByByteIff(d: int, x: Byte)
    ensures (d * x) % BASE == 0 <==> x == 0 || d % BASE == 0
  {
    if x == 0 {
      assert d * x == 0;
    } else if d % BASE == 0 {
      MultipleTimes(d / BASE, d, x);
    } else if (d * x) % BASE == 0 {
      ByteIsCoprime(d, x);
    }
  }

  lemma MultipleTimes(k: int, d: int, x: int)
    requires d == BASE * k
    ensures (d * x) % BASE == 0
  {
    assert d * x == BASE * (k * x);
    TimesIsProduct(BASE, k * x);
    MultipleOfBase(k * x);
  }

  lemma ProductsAgreeIff(a: nat, b: nat, x: Byte)
    ensures (Times(a, x) - Times(b, x)) % BASE == 0 <==> x == 0 || (a - b) % BASE == 0
  {
    TimesIsProduct(a, x);
    TimesIsProduct(b, x);
    assert Times(a, x) - Times(b, x) == (a - b) * x;
    MultipleByByteIff(a - b, x);
  }

  lemma RollingCongruence(w: Data, added: Byte, blocksize: nat, agree: bool)
    requires w != [] && (agree <==> (Times(blocksize, w[0]) - Times(|w|, w[0])) % BASE == 0)
    ensures Adler32Rolling(w[0], added, Adler32(w), blocksize) == Adler32(Slide(w, added)) <==> agree
  {
    AdlerClosedForm(w);
    AdlerClosedForm(Slide(w, added));
    SlideSums(w, added);
    RollArithmetic(Sum(w), Sum(Slide(w, added)), Weighted(w), |w|, added - w[0],
                   Times(|w|, w[0]), Times(blocksize, w[0]));
  }

  /**
   * The rolling form agrees with the direct form on the shifted window exactly when the byte dropped is
   * zero or the block size it is given is the window's length modulo 65521.
   */
  lemma RollingExactlyWhen(w: Data, added: Byte, blocksize: nat)
    requires w != []
    ensures Adler32Rolling(w[0], added, Adler32(w), blocksize) == Adler32(Slide(w, added))
       <==> w[0] == 0 || (blocksize - |w|) % BASE == 0
  {
    ProductsAgreeIff(blocksize, |w|, w[0]);
    RollingCongruence(w, added, blocksize, w[0] == 0 || (blocksize - |w|) % BASE == 0);
  }

  /** The arithmetic of one slide, with the two products as plain numbers. */
  lemma RollArithmetic(sum: int, sum': int, weighted: int, len: int, change: int, dropped: int, assumed: int)
    requires sum' == sum + change
    ensures var s1 := ((1 + sum) % BASE + change) % BASE;
            s1 == (1 + sum') % BASE
            && (((len + weighted) % BASE + s1 - assumed - 1) % BASE == (len + weighted - dropped + sum') % BASE
                <==> (assumed - dropped) % BASE == 0)
  {
    AddResidue(1 + sum, change);
    var s1 := (1 + sum') % BASE;
    AddResidue(len + weighted, s1 - assumed - 1);
    AddResidue(1 + sum', len + weighted - assumed - 1);
    SameResidue(len + weighted - dropped + sum', assumed - dropped);
  }

  lemma AddResidue(x: int, y: int)
    ensures (x % BASE + y) % BASE == (x + y) % BASE
  {
  }

  lemma SameResidue(x: int, d: int)
    ensures (x - d) % BASE == x % BASE <==> d % BASE == 0
  {
  }

  lemma RollingFullWindow(w: Data, added: Byte)
    requires w != []
    ensures Adler32Rolling(w[0], added, Adler32(w), |w|) == Adler32(Slide(w, added))
  {
    RollingCongruence(w, added, |w|, true);
  }

  lemma {:induction false} RollingFollowsWindow(w: Data, bytes: Data)
    requires w != []
    ensures RollAll(w, bytes, Adler32(w)) == Adler32(SlideAll(w, bytes))
  {
    if bytes != [] {
      var n := |bytes| - 1;
      RollingFollowsWindow(w, bytes[..n]);
      RollingFullWindow(SlideAll(w, bytes[..n]), bytes[n]);
    }
  }

  /** Any number of slides from a full window gives the checksum of the final window. */
  lemma RollingRefinesDirect(w: Data, bytes: Data)
    requires w != []
    ensures RollAll(w, bytes, Adler32(w)) == Adler32((w + bytes)[|bytes|..])
  {
    RollingFollowsWindow(w, bytes);
    SlideAllIsSuffix(w, bytes);
  }

  /** The packed 32-bit word carries both halves, so unpacking returns them. */
  lemma PackRoundTrip(data: Data)
    ensures Adler32(data).s1 < BASE && Adler32(data).s2 < BASE
    ensures 0 <= Adler32Fast(data) < 0x1_0000_0000
    ensures Unpack(Adler32Fast(data)) == Adler32(data)
  {
    AdlerClosedForm(data);
    PackedWord(Adler32(data));
  }

  lemma PackedWord(h: Halves)
    requires h.s1 < BASE && h.s2 < BASE
    ensures 0 <= Pack(h) < 0x1_0000_0000 && Unpack(Pack(h)) == h
  {
    SixteenBitFields(h.s2, h.s1);
    WordArithmetic(h.s2, h.s1);
  }

  lemma WordArithmetic(hi: nat, lo: nat)
    requires hi < 0x10000 && lo < 0x10000
    ensures var word := hi * 0x10000 + lo;
            word % 0x1_0000_0000 == word && word % 0x10000 == lo && word / 0x10000 % 0x10000 == hi
  {
  }
}
