/**
 * A restore patches with the block size it is configured with, which need not be the one the deltas were
 * made with (freezer/engine/rsyncv2/rsyncv2.py:437-471).
 */
module BlockSizes {
  import opened Bytes
  import opened Files
  import opened BlockSignatures
  import opened BlockDelta
  import opened TreeDelta
  import opened TreeRestore

  // ---------- how much is consumed ----------

  /** A patch consumes what was shipped exactly when its last block is where the length ends. */
  lemma ConsumedIsLengthIff(d: Deltas, bs: nat)
    requires bs > 0 && d.blocks != []
    ensures Consumed(d, bs) == d.length <==> Offset(|d.blocks| - 1, bs) < d.length <= Offset(|d.blocks|, bs)
  {
    var n := |d.blocks| - 1;
    NextOffset(n, bs);
    if Offset(n, bs) < d.length <= Offset(|d.blocks|, bs) {
      TimesIsProduct(n, bs);
      RemainderOfTotal(n, bs, d.length - Offset(n, bs));
    }
  }

  // ---------- which bytes a patch writes ----------

  /** The bytes that chunk `j` of the input is written to. */
  predicate InChunk(d: Deltas, bs: nat, j: nat, p: nat)
    requires bs > 0 && j < |d.blocks|
  {
    var off := Offset(d.blocks[j], bs);
    off <= p < off + if j == |d.blocks| - 1 then LastSize(d.length, bs) else bs
  }

  lemma {:induction false} PrefixWrites(c: Data, blocks: seq<nat>, bs: nat, input: Data, k: nat, j: nat, p: nat)
    requires Increasing(blocks) && j < k <= |blocks| && Offset(k, bs) <= |input|
    requires Offset(blocks[j], bs) <= p < Offset(blocks[j], bs) + bs
    ensures var r, q := PatchPrefix(c, blocks, bs, input, k), Offset(j, bs) + p - Offset(blocks[j], bs);
            p < |r| && q < |input| && r[p] == input[q]
  {
    TimesApart(j, k, bs);
    TimesApart(k - 1, k, bs);
    var before, off := PatchPrefix(c, blocks, bs, input, k - 1), Offset(blocks[k - 1], bs);
    WriteAtBytes(before, off, input[Offset(k - 1, bs)..Offset(k, bs)], p);
    if j < k - 1 {
      PrefixWrites(c, blocks, bs, input, k - 1, j, p);
      TimesApart(blocks[j], blocks[k - 1], bs);
    }
  }

  lemma {:induction false} PrefixKeeps(c: Data, blocks: seq<nat>, bs: nat, input: Data, k: nat, p: nat)
    requires k <= |blocks| && Offset(k, bs) <= |input| && p < |c|
    requires forall j :: 0 <= j < k ==> !(Offset(blocks[j], bs) <= p < Offset(blocks[j], bs) + bs)
    ensures var r := PatchPrefix(c, blocks, bs, input, k); p < |r| && r[p] == c[p]
  {
    if k > 0 {
      TimesApart(k - 1, k, bs);
      PrefixKeeps(c, blocks, bs, input, k - 1, p);
      WriteAtBytes(PatchPrefix(c, blocks, bs, input, k - 1), Offset(blocks[k - 1], bs),
                   input[Offset(k - 1, bs)..Offset(k, bs)], p);
    }
  }

  /** A position of the result in chunk `j` holds that chunk's byte. */
  lemma PatchWrites(c: Data, size: nat, d: Deltas, bs: nat, input: Data, j: nat, p: nat)
    requires bs > 0 && Increasing(d.blocks) && j < |d.blocks| && Consumed(d, bs) <= |input|
    requires p < size && InChunk(d, bs, j, p)
    ensures Offset(j, bs) + p - Offset(d.blocks[j], bs) < |input|
    ensures PatchedContent(c, size, d, bs, input)[p] == input[Offset(j, bs) + p - Offset(d.blocks[j], bs)]
  {
    var n := |d.blocks| - 1;
    if j < n {
      PrefixWrites(c, d.blocks, bs, input, n, j, p);
      TimesApart(d.blocks[j], d.blocks[n], bs);
    }
    LastWrite(PatchPrefix(c, d.blocks, bs, input, n), size, Offset(d.blocks[n], bs),
              input[Offset(n, bs)..Consumed(d, bs)], p);
  }

  lemma LastWrite(before: Data, size: nat, offset: nat, chunk: Data, p: nat)
    requires p < size
    ensures var r := Resize(WriteAt(before, offset, chunk), size);
            && (offset <= p < offset + |chunk| ==> r[p] == chunk[p - offset])
            && (p < offset && p < |before| ==> r[p] == before[p])
  {
    WriteAtBytes(before, offset, chunk, p);
  }

  /** A position in no chunk keeps its byte. */
  lemma PatchKeeps(c: Data, size: nat, d: Deltas, bs: nat, input: Data, p: nat)
    requires bs > 0 && d.blocks != [] && Consumed(d, bs) <= |input| && p < size && p < |c|
    requires forall j :: 0 <= j < |d.blocks| ==> !InChunk(d, bs, j, p)
    ensures PatchedContent(c, size, d, bs, input)[p] == c[p]
  {
    var n := |d.blocks| - 1;
    forall j | 0 <= j < n ensures !(Offset(d.blocks[j], bs) <= p < Offset(d.blocks[j], bs) + bs) {
      assert !InChunk(d, bs, j, p);
    }
    PrefixKeeps(c, d.blocks, bs, input, n, p);
    assert !InChunk(d, bs, n, p);
    WriteAtBytes(PatchPrefix(c, d.blocks, bs, input, n), Offset(d.blocks[n], bs),
                 input[Offset(n, bs)..Consumed(d, bs)], p);
  }

  // ---------- when two block sizes give the same patch ----------

  /** The changed blocks are the first ones of the file, without a gap. */
  predicate FromStart(blocks: seq<nat>) {
    forall j :: 0 <= j < |blocks| ==> blocks[j] == j
  }

  /** For every content and every input, both sizes take the same bytes and give the same file. */
  ghost predicate PatchesAgree(d: Deltas, size: nat, bs: nat, bs': nat)
    requires bs > 0 && bs' > 0 && d.blocks != []
  {
    && Consumed(d, bs') == Consumed(d, bs)
    && forall c: Data, input: Data :: |input| >= Consumed(d, bs) ==>
         PatchedContent(c, size, d, bs', input) == PatchedContent(c, size, d, bs, input)
  }

  /** Writing two adjacent pieces is writing them joined. */
  lemma WriteNext(c: Data, a: Data, b: Data)
    ensures WriteAt(WriteAt(c, 0, a), |a|, b) == WriteAt(c, 0, a + b)
  {
    if a == [] {
      assert a + b == b;
    }
  }

  lemma {:induction false} PrefixFromStart(c: Data, blocks: seq<nat>, bs: nat, input: Data, k: nat)
    requires FromStart(blocks) && k <= |blocks| && Offset(k, bs) <= |input|
    ensures PatchPrefix(c, blocks, bs, input, k) == WriteAt(c, 0, input[..Offset(k, bs)])
  {
    if k > 0 {
      TimesApart(k - 1, k, bs);
      PrefixFromStart(c, blocks, bs, input, k - 1);
      JoinSlices(input, Offset(k - 1, bs), Offset(k, bs));
      WriteNext(c, input[..Offset(k - 1, bs)], input[Offset(k - 1, bs)..Offset(k, bs)]);
    }
  }

  lemma JoinSlices(s: Data, i: nat, j: nat)
    requires i <= j <= |s|
    ensures s[..i] + s[i..j] == s[..j]
  {
  }

  /** Blocks from the start are one contiguous write, whatever the block size. */
  lemma PatchFromStart(c: Data, size: nat, d: Deltas, bs: nat, input: Data)
    requires bs > 0 && d.blocks != [] && FromStart(d.blocks) && Consumed(d, bs) <= |input|
    ensures PatchedContent(c, size, d, bs, input) == Resize(WriteAt(c, 0, input[..Consumed(d, bs)]), size)
  {
    var n := |d.blocks| - 1;
    PrefixFromStart(c, d.blocks, bs, input, n);
    JoinSlices(input, Offset(n, bs), Consumed(d, bs));
    WriteNext(c, input[..Offset(n, bs)], input[Offset(n, bs)..Consumed(d, bs)]);
  }

  lemma {:induction false} FirstGap(blocks: seq<nat>, k: nat) returns (j: nat)
    requires Increasing(blocks) && k <= |blocks| && !FromStart(blocks)
    requires forall i :: 0 <= i < k ==> blocks[i] == i
    ensures j < |blocks| && blocks[j] > j && forall i :: 0 <= i < j ==> blocks[i] == i
    decreases |blocks| - k
  {
    if blocks[k] == k {
      j := FirstGap(blocks, k + 1);
    } else {
      j := k;
      if k > 0 {
        assert blocks[k - 1] < blocks[k];
      }
    }
  }

  /** An input that is zero but for one byte. */
  function Mark(length: nat, at: nat): (d: Data)
    ensures |d| == length && forall i :: 0 <= i < length ==> d[i] == if i == at then 1 else 0
  {
    seq(length, i => if i == at then 1 else 0)
  }

  /**
   * With a gap before block `j`, the smaller of two sizes puts the first byte of chunk `j` where the
   * larger one puts another byte, or none.
   */
  lemma GapTellsSizes(d: Deltas, size: nat, small: nat, large: nat, j: nat)
    requires 0 < small < large && Increasing(d.blocks) && j < |d.blocks| && d.blocks[j] > j
    requires forall i :: 0 <= i < j ==> d.blocks[i] == i
    requires Consumed(d, large) == Consumed(d, small) && Offset(d.blocks[j], small) < size
    ensures var q, input := Offset(d.blocks[j], small), Mark(Consumed(d, small), Offset(j, small));
            PatchedContent(Zeros(size), size, d, small, input)[q] == 1
            && PatchedContent(Zeros(size), size, d, large, input)[q] == 0
  {
    var q, at := Offset(d.blocks[j], small), Offset(j, small);
    var input := Mark(Consumed(d, small), at);
    TimesApart(j, d.blocks[j], small);
    PatchWrites(Zeros(size), size, d, small, input, j, q);
    if i: nat :| i < |d.blocks| && InChunk(d, large, i, q) {
      PatchWrites(Zeros(size), size, d, large, input, i, q);
      LaterStartsAfter(d, small, large, j, i);
      assert d.blocks[i] == i;
    } else {
      PatchKeeps(Zeros(size), size, d, large, input, q);
    }
  }

  lemma LaterStartsAfter(d: Deltas, small: nat, large: nat, j: nat, i: nat)
    requires 0 < small < large && Increasing(d.blocks) && j < |d.blocks| && i < |d.blocks| && d.blocks[j] > 0
    ensures i >= j ==> Offset(d.blocks[i], large) > Offset(d.blocks[j], small)
  {
    if i >= j {
      assert d.blocks[i] >= d.blocks[j];
      if d.blocks[i] > d.blocks[j] {
        TimesApart(d.blocks[j], d.blocks[i], large);
      }
      LargerSize(d.blocks[j], small, large);
    }
  }

  lemma {:induction false} LargerSize(k: nat, small: nat, large: nat)
    requires small < large
    ensures Offset(k, small) <= Offset(k, large)
    ensures k > 0 ==> Offset(k, small) < Offset(k, large)
  {
    if k > 0 {
      LargerSize(k - 1, small, large);
      NextOffset(k - 1, small);
      NextOffset(k - 1, large);
    }
  }

  /**
   * Deltas made with one block size restore every file as intended under another one exactly when the
   * sizes are equal, or the changed blocks start the file without a gap and the last one ends where the
   * other size expects it.
   */
  lemma PatchesAgreeIff(after: Data, blocks: seq<nat>, bs: nat, bs': nat)
    requires bs > 0 && bs' > 0 && blocks != [] && BlocksOf(blocks, after, bs)
    ensures var d := Deltas(|DeltaBytes(after, bs, blocks)|, blocks);
            PatchesAgree(d, |after|, bs, bs') <==>
            bs' == bs
            || (FromStart(blocks) && Offset(|blocks| - 1, bs') < d.length <= Offset(|blocks|, bs'))
  {
    var d := Deltas(|DeltaBytes(after, bs, blocks)|, blocks);
    ConsumedIsTotal(after, bs, blocks);
    ConsumedIsLengthIff(d, bs');
    if Consumed(d, bs') == d.length && bs' != bs {
      if FromStart(blocks) {
        forall c: Data, input: Data | |input| >= Consumed(d, bs)
          ensures PatchedContent(c, |after|, d, bs', input) == PatchedContent(c, |after|, d, bs, input)
        {
          PatchFromStart(c, |after|, d, bs, input);
          PatchFromStart(c, |after|, d, bs', input);
        }
      } else {
        var j := FirstGap(blocks, 0);
        BlockBelowCount(|after|, bs, blocks[j]);
        if bs < bs' {
          GapTellsSizes(d, |after|, bs, bs', j);
        } else {
          LargerSize(blocks[j], bs', bs);
          GapTellsSizes(d, |after|, bs', bs, j);
        }
      }
    }
  }

  /** Two sizes can agree without being equal, on more than one block. */
  lemma AdjacentBlocksCanAgree(after: Data)
    requires |after| == 7
    ensures PatchesAgree(Deltas(7, [0, 1]), 7, 4, 5) && !PatchesAgree(Deltas(7, [0, 1]), 7, 4, 8)
  {
    assert Offset(1, 4) == 4 && Offset(1, 5) == 5 && Offset(2, 5) == 10 && Offset(1, 8) == 8;
    BlockBelowCount(7, 4, 0);
    BlockBelowCount(7, 4, 1);
    ConsumedIsTotal(after, 4, [0, 1]);
    PatchesAgreeIff(after, [0, 1], 4, 5);
    PatchesAgreeIff(after, [0, 1], 4, 8);
  }

  // ---------- headers and levels ----------

  /** The header restores the same under both sizes. */
  ghost predicate Fits(header: Header, bs: nat, bs': nat)
    requires bs > 0 && bs' > 0
  {
    Patches(header) && header.deltas.value.length != 0 && header.deltas.value.blocks != [] ==>
      PatchesAgree(header.deltas.value, header.size, bs, bs')
  }

  ghost predicate AllFit(headers: seq<Header>, bs: nat, bs': nat)
    requires bs > 0 && bs' > 0
  {
    forall header :: header in headers ==> Fits(header, bs, bs')
  }

  lemma HeaderUnder(fs: Target, header: Header, level: nat, bs: nat, bs': nat, input: Data)
    requires bs > 0 && bs' > 0 && Fits(header, bs, bs') && RestoreOne(fs, header, level, bs, input).outcome.Done?
    ensures RestoreOne(fs, header, level, bs', input) == RestoreOne(fs, header, level, bs, input)
  {
  }

  /** A level whose headers all fit restores the same under the other size. */
  lemma {:induction false} HeadersUnder(fs: Target, headers: seq<Header>, level: nat, bs: nat, bs': nat, input: Data)
    requires bs > 0 && bs' > 0 && AllFit(headers, bs, bs') && RestoreAll(fs, headers, level, bs, input).outcome.Done?
    ensures RestoreAll(fs, headers, level, bs', input) == RestoreAll(fs, headers, level, bs, input)
  {
    if headers != [] {
      var n := |headers| - 1;
      assert headers[n] in headers && forall x :: x in headers[..n] ==> x in headers;
      HeadersUnder(fs, headers[..n], level, bs, bs', input);
      var mid := RestoreAll(fs, headers[..n], level, bs, input);
      HeaderUnder(mid.files, headers[n], level, bs, bs', mid.rest);
    }
  }

  /** Without patches the block size plays no part at all, however the stream ends. */
  lemma {:induction false} NoPatchesNoSize(fs: Target, headers: seq<Header>, level: nat, bs: nat, bs': nat, input: Data)
    requires bs > 0 && bs' > 0 && forall header :: header in headers ==> !Patches(header)
    ensures RestoreAll(fs, headers, level, bs', input) == RestoreAll(fs, headers, level, bs, input)
  {
    if headers != [] {
      var n := |headers| - 1;
      assert headers[n] in headers && forall x :: x in headers[..n] ==> x in headers;
      NoPatchesNoSize(fs, headers[..n], level, bs, bs', input);
    }
  }

  /** When a header that a backup run wrote fits. */
  lemma WrittenHeaderFitsIff(tree: Tree, listing: seq<Path>, manifest: Option<Manifest>, oldListing: seq<Path>,
                             configured: nat, h: Hash, header: Header, bs': nat)
    requires configured > 0 && bs' > 0 && Complete(OldFiles(manifest))
    requires Lists(listing, tree.Keys) && Lists(oldListing, OldFiles(manifest).Keys)
    requires header in LevelFor(tree, listing, manifest, oldListing, configured, h).headers
    ensures var bs := AdoptedBlockSize(manifest, configured);
            Fits(header, bs, bs') <==>
            !Patches(header) || bs' == bs
            || var d := header.deltas.value;
               d.blocks != [] && FromStart(d.blocks)
               && Offset(|d.blocks| - 1, bs') < d.length <= Offset(|d.blocks|, bs')
  {
    var bs, earlier := AdoptedBlockSize(manifest, configured), OldFiles(manifest);
    EntriesOfListing(tree, listing, earlier, bs, h);
    DeletionsAreDeleted(tree, oldListing);
    if Patches(header) {
      var content := tree[header.path].content;
      var sig := OldFileMeta(header.path, tree[header.path].stat, earlier).value.signature.value;
      ScanIsBlocksOf(content, sig, bs, h);
      PatchesAgreeIff(content, header.deltas.value.blocks, bs, bs');
    }
  }
}
