/** The unreduced weak checksum of the first rsync engine (freezer/engine/rsync/pyrsync.py). */
module RollingChecksum {
  import opened Bytes
  import opened Bits
  import opened ByteSums
  import Files

  datatype Sums = Sums(a: int, b: int)

  datatype Weak = Weak(checksum: int, sums: Sums)

  /** `(b << 16) | a` beside the two sums. */
  function WeakOf(s: Sums): Weak {
    Weak(Or(s.b * 0x10000, s.a), s)
  }

  /** The checksum of a window, computed by the source's loop over its bytes. */
  method WeakChecksum(data: Data) returns (w: Weak)
    ensures w == WeakOf(SumsOf(data))
  {
    var a: int, b: int := 0, 0;
    var le := |data|;
    TimesDistributes(le, 0, 0);
    for i := 0 to le
      invariant a == Sum(data[..i])
      invariant b == Weighted(data[..i]) + Times(le - i, a)
    {
      assert data[..i + 1][..i] == data[..i];
      TimesDistributes(le - i, a, data[i]);
      a := a + data[i];
      b := b + Times(le - i, data[i]);
    }
    assert data[..le] == data;
    w := WeakOf(Sums(a, b));
  }

  /** The two sums after the window drops `removed` and takes in `added`. */
  function RollSums(removed: Byte, added: Byte, s: Sums, blocksize: nat): Sums {
    var a' := s.a - (removed - added);
    Sums(a', s.b - (Times(blocksize, removed) - a'))
  }

  function Roll(removed: Byte, added: Byte, s: Sums, blocksize: nat): Weak {
    WeakOf(RollSums(removed, added, s, blocksize))
  }

  /** The sums after sliding through `bytes` one at a time. */
  function RollAll(w: Data, bytes: Data, start: Sums, blocksize: nat): Sums
    requires w != []
  {
    if bytes == [] then start
    else
      var n := |bytes| - 1;
      RollSums(SlideAll(w, bytes[..n])[0], bytes[n], RollAll(w, bytes[..n], start, blocksize), blocksize)
  }

  function SumsOf(w: Data): Sums {
    Sums(Sum(w), Weighted(w))
  }

  /** One slide is right exactly when the window is full or the byte it drops is zero. */
  lemma RollExactlyWhen(w: Data, added: Byte, blocksize: nat)
    requires w != []
    ensures RollSums(w[0], added, SumsOf(w), blocksize) == SumsOf(Slide(w, added))
       <==> (|w| == blocksize || w[0] == 0)
  {
    SlideSums(w, added);
    TimesAgree(blocksize, |w|, w[0]);
  }

  lemma TimesAgree(x: nat, y: nat, k: int)
    ensures Times(x, k) == Times(y, k) <==> (y == x || k == 0)
  {
    TimesIsProduct(x, k);
    TimesIsProduct(y, k);
    if k != 0 && x * k == y * k {
      CancelFactor(k, x, y);
    }
  }

  lemma CancelFactor(k: int, x: int, y: int)
    requires k != 0 && x * k == y * k
    ensures x == y
  {
  }

  /** From a full window, any sequence of slides gives what the loop computes on the final window. */
  lemma {:induction false} RollAllRefinesDirect(w: Data, bytes: Data)
    requires w != []
    ensures RollAll(w, bytes, SumsOf(w), |w|) == SumsOf((w + bytes)[|bytes|..])
  {
    SlideAllIsSuffix(w, bytes);
    if bytes != [] {
      var n := |bytes| - 1;
      RollAllRefinesDirect(w, bytes[..n]);
      SlideAllIsSuffix(w, bytes[..n]);
      RollExactlyWhen(SlideAll(w, bytes[..n]), bytes[n], |w|);
    }
  }

  /** Equal sums make equal checksums. */
  lemma ChecksumFollowsSums(x: Sums, y: Sums)
    requires x == y
    ensures WeakOf(x) == WeakOf(y)
  {
  }

  /** Sliding in zeros past the end of the data gives the sums of the zero-padded tail. */
  lemma TailIsZeroPadded(w: Data, k: nat)
    requires w != [] && k <= |w|
    ensures RollAll(w, Files.Zeros(k), SumsOf(w), |w|) == SumsOf(w[k..] + Files.Zeros(k))
  {
    var z := Files.Zeros(k);
    RollAllRefinesDirect(w, z);
    DropOfAppend(w, z);
  }

  lemma DropOfAppend(w: Data, z: Data)
    requires |z| <= |w|
    ensures (w + z)[|z|..] == w[|z|..] + z
  {
  }

  /** The checksum returned by one roll of a full window is the one the loop computes. */
  lemma RollChecksum(w: Data, added: Byte)
    requires w != []
    ensures Roll(w[0], added, SumsOf(w), |w|) == WeakOf(SumsOf(Slide(w, added)))
  {
    RollExactlyWhen(w, added, |w|);
    ChecksumFollowsSums(RollSums(w[0], added, SumsOf(w), |w|), SumsOf(Slide(w, added)));
  }
}
