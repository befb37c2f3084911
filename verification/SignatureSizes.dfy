/**
 * Deltas computed with one block size against signatures of another (freezer/engine/rsyncv2/rsyncv2.py:661-679:
 * the metadata record the configured size also when a run adopts that of its base).
 */
module SignatureSizes {
  import opened Bytes
  import opened Files
  import opened BlockSignatures
  import opened BlockDelta
  import opened BlockSizes

  /** A block that agrees with the entry at its position has the bytes of that entry's block. */
  ghost predicate DigestsTell(before: Data, after: Data, a: nat, b: nat, h: Hash)
    requires a > 0 && b > 0
  {
    forall i: nat ::
      i < BlockCount(|after|, b) && Matches(SignatureOf(before, a, h), i, BlockAt(after, b, i), h)
      ==> BlockAt(before, a, i) == BlockAt(after, b, i)
  }

  /** The deltas that a scan with size `b` finds against signatures of size `a` patch the file right. */
  ghost predicate PatchedRight(before: Data, after: Data, a: nat, b: nat, h: Hash)
    requires a > 0 && b > 0
  {
    PatchesTo(before, after, SignatureOf(before, a, h), b, b, h)
  }

  /** They do for all files of these lengths, wherever digests tell blocks apart. */
  ghost predicate AlwaysRight(len: nat, len': nat, a: nat, b: nat)
    requires a > 0 && b > 0
  {
    forall before: Data, after: Data, h: Hash ::
      |before| == len && |after| == len' && DigestsTell(before, after, a, b, h) ==> PatchedRight(before, after, a, b, h)
  }

  /** A later block of the new file is as long as the block of the old one at the same position. */
  predicate AsLongAt(len: nat, len': nat, a: nat, b: nat, i: nat)
    requires a > 0 && b > 0
  {
    && 0 < i < BlockCount(len, a) && i < BlockCount(len', b)
    && Min(a, len - Offset(i, a)) == Min(b, len' - Offset(i, b))
  }

  lemma BlockLength(data: Data, bs: nat, i: nat)
    requires bs > 0 && i < BlockCount(|data|, bs)
    ensures Offset(i, bs) < |data| && |BlockAt(data, bs, i)| == Min(bs, |data| - Offset(i, bs))
  {
    BlockBelowCount(|data|, bs, i);
  }

  /** A block left out is the first one, and the old file begins with it. */
  lemma LeftOutIsOld(before: Data, after: Data, a: nat, b: nat, h: Hash, p: nat)
    requires a > 0 && b > 0 && p < |after| && DigestsTell(before, after, a, b, h)
    requires forall i: nat :: !AsLongAt(|before|, |after|, a, b, i)
    requires var d := DeltasOf(after, SignatureOf(before, a, h), b, h); !Covered(p, b, d.blocks, |d.blocks|)
    ensures p < |before| && before[p] == after[p]
  {
    var i := UncoveredBlockMatches(after, SignatureOf(before, a, h), b, h, p);
    BlockLength(before, a, i);
    BlockLength(after, b, i);
    assert !AsLongAt(|before|, |after|, a, b, i);
    assert BlockAt(after, b, 0)[p] == after[p];
    assert BlockAt(before, a, 0)[p] == before[p];
  }

  lemma RightWithoutSuchBlock(before: Data, after: Data, a: nat, b: nat, h: Hash)
    requires a > 0 && b > 0 && DigestsTell(before, after, a, b, h)
    requires a == b || forall i: nat :: !AsLongAt(|before|, |after|, a, b, i)
    ensures PatchedRight(before, after, a, b, h)
  {
    var d := DeltasOf(after, SignatureOf(before, a, h), b, h);
    ScanIsBlocksOf(after, SignatureOf(before, a, h), b, h);
    if d.length > 0 {
      forall p: nat | p < |after| && !Covered(p, b, d.blocks, |d.blocks|)
        ensures p < |before| && before[p] == after[p]
      {
        if a == b {
          UncoveredByteIsOld(before, after, b, h, p);
        } else {
          LeftOutIsOld(before, after, a, b, h, p);
        }
      }
      var shipped := DeltaBytes(after, b, d.blocks);
      PatchExactlyWhen(before, after, b, d.blocks, []);
      assert shipped + [] == shipped;
    }
  }

  /** A digest without collisions. */
  function Spell(data: Data): string {
    seq(|data|, i requires 0 <= i < |data| => data[i] as char)
  }

  lemma SpellTells(before: Data, after: Data, a: nat, b: nat)
    requires a > 0 && b > 0
    ensures DigestsTell(before, after, a, b, Spell)
  {
    forall i: nat | i < BlockCount(|after|, b) && Matches(SignatureOf(before, a, Spell), i, BlockAt(after, b, i), Spell)
      ensures BlockAt(before, a, i) == BlockAt(after, b, i)
    {
      SpellDiffers(BlockAt(before, a, i), BlockAt(after, b, i));
    }
  }

  lemma SpellDiffers(u: Data, v: Data)
    ensures Spell(u) == Spell(v) ==> u == v
  {
    if Spell(u) == Spell(v) {
      assert |u| == |Spell(u)| == |v|;
      forall k | 0 <= k < |u| ensures u[k] == v[k] {
        assert Spell(u)[k] == Spell(v)[k];
      }
    }
  }

  lemma OffsetsDiffer(i: nat, a: nat, b: nat)
    requires i > 0 && a != b
    ensures Offset(i, a) != Offset(i, b)
  {
    if a < b {
      LargerSize(i, a, b);
    } else {
      LargerSize(i, b, a);
    }
  }

  /** Two files that are zero but for the first byte of these blocks: the blocks agree, at different places. */
  lemma MarkedBlocksAgree(len: nat, len': nat, a: nat, b: nat, i: nat)
    requires a > 0 && b > 0 && AsLongAt(len, len', a, b, i)
    ensures var before, after := Mark(len, Offset(i, a)), Mark(len', Offset(i, b));
            && BlockAt(before, a, i) == BlockAt(after, b, i)
            && Matches(SignatureOf(before, a, Spell), i, BlockAt(after, b, i), Spell)
  {
    var before, after := Mark(len, Offset(i, a)), Mark(len', Offset(i, b));
    BlockLength(before, a, i);
    BlockLength(after, b, i);
    forall k | 0 <= k < |BlockAt(after, b, i)| ensures BlockAt(before, a, i)[k] == BlockAt(after, b, i)[k] {
      assert BlockAt(before, a, i)[k] == before[Offset(i, a) + k];
      assert BlockAt(after, b, i)[k] == after[Offset(i, b) + k];
    }
  }

  /** The first blocks of such files differ in length, so something is shipped. */
  lemma FirstBlockShips(before: Data, after: Data, a: nat, b: nat, i: nat)
    requires a > 0 && b > 0 && a != b && AsLongAt(|before|, |after|, a, b, i)
    ensures !Matches(SignatureOf(before, a, Spell), 0, BlockAt(after, b, 0), Spell)
  {
    BlockLength(before, a, i);
    BlockLength(after, b, i);
    TimesApart(0, i, a);
    TimesApart(0, i, b);
    assert |BlockAt(before, a, 0)| == a && |BlockAt(after, b, 0)| == b;
    SpellDiffers(BlockAt(before, a, 0), BlockAt(after, b, 0));
  }

  lemma OnlyItsBlockCovers(blocks: seq<nat>, bs: nat, i: nat)
    requires bs > 0 && i !in blocks
    ensures !Covered(Offset(i, bs), bs, blocks, |blocks|)
  {
    forall j | 0 <= j < |blocks| ensures !(Offset(blocks[j], bs) <= Offset(i, bs) < Offset(blocks[j], bs) + bs) {
      if blocks[j] < i {
        TimesApart(blocks[j], i, bs);
      } else {
        assert blocks[j] != i;
        TimesApart(i, blocks[j], bs);
      }
    }
  }

  /** Something is shipped of such files, but not the marked block. */
  lemma ShipsAllButMarked(len: nat, len': nat, a: nat, b: nat, i: nat)
    requires a > 0 && b > 0 && a != b && AsLongAt(len, len', a, b, i)
    ensures var sig := SignatureOf(Mark(len, Offset(i, a)), a, Spell);
            var d := DeltasOf(Mark(len', Offset(i, b)), sig, b, Spell);
            d.length > 0 && d.blocks != [] && i !in d.blocks && BlocksOf(d.blocks, Mark(len', Offset(i, b)), b)
  {
    var before, after := Mark(len, Offset(i, a)), Mark(len', Offset(i, b));
    var sig := SignatureOf(before, a, Spell);
    MarkedBlocksAgree(len, len', a, b, i);
    FirstBlockShips(before, after, a, b, i);
    ChangedBlocksMembers(after, sig, b, Spell, BlockCount(len', b), 0);
    ChangedBlocksMembers(after, sig, b, Spell, BlockCount(len', b), i);
    ScanIsBlocksOf(after, sig, b, Spell);
  }

  /** A patch that leaves out the block at `p` misses its byte. */
  lemma MissesByte(before: Data, after: Data, b: nat, d: Deltas, i: nat)
    requires b > 0 && d.blocks != [] && BlocksOf(d.blocks, after, b) && i !in d.blocks
    requires d.length == |DeltaBytes(after, b, d.blocks)|
    requires Offset(i, b) < |after| && after[Offset(i, b)] != ByteOrZero(before, Offset(i, b))
    ensures Consumed(d, b) == d.length
    ensures PatchedContent(before, |after|, d, b, DeltaBytes(after, b, d.blocks)) != after
  {
    OnlyItsBlockCovers(d.blocks, b, i);
    PatchExactlyWhen(before, after, b, d.blocks, []);
    assert DeltaBytes(after, b, d.blocks) + [] == DeltaBytes(after, b, d.blocks);
  }

  lemma WrongWithSuchBlock(len: nat, len': nat, a: nat, b: nat, i: nat)
    requires a > 0 && b > 0 && a != b && AsLongAt(len, len', a, b, i)
    ensures !AlwaysRight(len, len', a, b)
  {
    var before, after := Mark(len, Offset(i, a)), Mark(len', Offset(i, b));
    SpellTells(before, after, a, b);
    ShipsAllButMarked(len, len', a, b, i);
    OffsetsDiffer(i, a, b);
    BlockLength(after, b, i);
    MissesByte(before, after, b, DeltasOf(after, SignatureOf(before, a, Spell), b, Spell), i);
    assert !PatchedRight(before, after, a, b, Spell);
  }

  /**
   * For all files of two lengths, and digests that tell blocks apart: deltas against signatures of another
   * size patch right exactly when no block but the first can agree by its length.
   */
  lemma StaleSizeIff(len: nat, len': nat, a: nat, b: nat)
    requires a > 0 && b > 0
    ensures AlwaysRight(len, len', a, b) <==> a == b || forall i: nat :: !AsLongAt(len, len', a, b, i)
  {
    if a == b || forall i: nat :: !AsLongAt(len, len', a, b, i) {
      forall before: Data, after: Data, h: Hash
        | |before| == len && |after| == len' && DigestsTell(before, after, a, b, h)
        ensures PatchedRight(before, after, a, b, h)
      {
        RightWithoutSuchBlock(before, after, a, b, h);
      }
    } else {
      var i: nat :| AsLongAt(len, len', a, b, i);
      WrongWithSuchBlock(len, len', a, b, i);
    }
  }
}
