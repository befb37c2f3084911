/** Shipping the changed blocks of one file and patching them in (freezer/engine/rsyncv2/rsyncv2.py). */
module BlockDelta {
  import opened Bytes
  import opened Files
  import opened BlockSignatures

  /** The `deltas` field of a header: the byte total of the changed blocks and their positions. */
  datatype Deltas = Deltas(length: nat, blocks: seq<nat>)

  // ---------- what the backup side computes ----------

  /** The changed positions among the first `n` blocks, in order. */
  ghost function ChangedBlocks(data: Data, sig: Signature, bs: nat, h: Hash, n: nat): seq<nat> {
    if n == 0 then []
    else ChangedBlocks(data, sig, bs, h, n - 1)
         + if Matches(sig, n - 1, BlockAt(data, bs, n - 1), h) then [] else [n - 1]
  }

  ghost predicate Increasing(s: seq<nat>) {
    forall j, k :: 0 <= j < k < |s| ==> s[j] < s[k]
  }

  /** The list holds exactly the positions whose block disagrees. */
  lemma {:induction false} ChangedBlocksMembers(data: Data, sig: Signature, bs: nat, h: Hash, n: nat, i: nat)
    ensures i in ChangedBlocks(data, sig, bs, h, n) <==> i < n && !Matches(sig, i, BlockAt(data, bs, i), h)
  {
    if n > 0 {
      ChangedBlocksMembers(data, sig, bs, h, n - 1, i);
    }
  }

  lemma {:induction false} ChangedBlocksIncrease(data: Data, sig: Signature, bs: nat, h: Hash, n: nat)
    ensures var r := ChangedBlocks(data, sig, bs, h, n);
            Increasing(r) && forall k :: 0 <= k < |r| ==> r[k] < n
  {
    if n > 0 {
      ChangedBlocksIncrease(data, sig, bs, h, n - 1);
    }
  }

  /** The listed blocks joined in order. */
  ghost function DeltaBytes(data: Data, bs: nat, blocks: seq<nat>): Data {
    if blocks == [] then []
    else DeltaBytes(data, bs, blocks[..|blocks| - 1]) + BlockAt(data, bs, blocks[|blocks| - 1])
  }

  ghost function DeltasOf(data: Data, sig: Signature, bs: nat, h: Hash): Deltas
    requires bs > 0
  {
    var blocks := ChangedBlocks(data, sig, bs, h, BlockCount(|data|, bs));
    Deltas(|DeltaBytes(data, bs, blocks)|, blocks)
  }

  /**
   * Against the signature of a file: a block is shipped exactly when the file has no block at that position, or
   * one with another Adler-32 or another strong digest.
   */
  lemma ListedIff(before: Data, after: Data, bs: nat, h: Hash, i: nat)
    requires bs > 0
    ensures i in DeltasOf(after, SignatureOf(before, bs, h), bs, h).blocks <==>
              && i < BlockCount(|after|, bs)
              && (i < BlockCount(|before|, bs) ==>
                    Adler.Adler32(BlockAt(before, bs, i)) != Adler.Adler32(BlockAt(after, bs, i))
                    || h(BlockAt(before, bs, i)) != h(BlockAt(after, bs, i)))
  {
    ChangedBlocksMembers(after, SignatureOf(before, bs, h), bs, h, BlockCount(|after|, bs), i);
    Adler.PackRoundTrip(BlockAt(before, bs, i));
    Adler.PackRoundTrip(BlockAt(after, bs, i));
  }

  /** What one more compared block adds to the scan. */
  lemma ScanStep(data: Data, sig: Signature, bs: nat, h: Hash, i: nat)
    requires bs > 0 && i < BlockCount(|data|, bs)
    ensures var item, before, after := ItemAt(data, sig, bs, h, i),
                                       ChangedBlocks(data, sig, bs, h, i), ChangedBlocks(data, sig, bs, h, i + 1);
            if item.Changed? then
              item.block != [] && after == before + [i]
              && |DeltaBytes(data, bs, after)| == |DeltaBytes(data, bs, before)| + |item.block|
            else after == before
  {
    BlockBelowCount(|data|, bs, i);
    var before := ChangedBlocks(data, sig, bs, h, i);
    assert (before + [i])[..|before|] == before;
  }

  method GetDeltasInfo(f: OpenFile, sig: Signature, bs: nat, h: Hash) returns (d: Deltas)
    requires bs > 0 && f.pos == 0
    modifies f`pos
    ensures d == DeltasOf(f.content, sig, bs, h)
  {
    var lenDeltas: nat, modified: seq<nat> := 0, [];
    var items := RsyncDeltaFast(f, sig, bs, h);
    for index := 0 to |items|
      invariant modified == ChangedBlocks(f.content, sig, bs, h, index)
      invariant lenDeltas == |DeltaBytes(f.content, bs, modified)|
    {
      ScanStep(f.content, sig, bs, h, index);
      var item := items[index];
      if item.Changed? {
        var blockLen := |item.block|;
        if blockLen > 0 {
          lenDeltas := lenDeltas + blockLen;
          modified := modified + [index];
        }
      }
    }
    d := Deltas(lenDeltas, modified);
  }

  /** Put the changed blocks on the write queue. */
  method BackupDeltas(f: OpenFile, blocks: seq<nat>, bs: nat) returns (queue: seq<Data>)
    modifies f`pos
    ensures Flatten(queue) == DeltaBytes(f.content, bs, blocks)
  {
    queue := [];
    for k := 0 to |blocks|
      invariant Flatten(queue) == DeltaBytes(f.content, bs, blocks[..k])
    {
      f.Seek(Offset(blocks[k], bs));
      var block := f.Read(bs);
      assert block == BlockAt(f.content, bs, blocks[k]);
      FlattenSnoc(queue, block);
      assert blocks[..k + 1][..k] == blocks[..k];
      queue := queue + [block];
    }
    assert blocks[..|blocks|] == blocks;
  }

  /** Put a whole file on the write queue in segments. */
  method BackupFile(f: OpenFile, maxSegment: nat) returns (queue: seq<Data>)
    requires maxSegment > 0 && f.pos == 0
    modifies f`pos
    ensures Flatten(queue) == f.content
  {
    queue := [];
    var block := f.Read(maxSegment);
    while block != []
      invariant f.pos <= |f.content|
      invariant Flatten(queue) + block == f.content[..f.pos]
      invariant block == [] ==> f.pos == |f.content|
      decreases |f.content| - f.pos, |block|
    {
      FlattenSnoc(queue, block);
      queue := queue + [block];
      block := f.Read(maxSegment);
    }
    assert f.content[..f.pos] == f.content;
  }

  // ---------- what the restore side computes ----------

  /** The file after the first `k` blocks, each a full one, were written from `input`. */
  ghost function PatchPrefix(c: Data, blocks: seq<nat>, bs: nat, input: Data, k: nat): Data
    requires k <= |blocks| && Offset(k, bs) <= |input|
  {
    if k == 0 then c
    else
      WriteAt(PatchPrefix(c, blocks, bs, input, k - 1), Offset(blocks[k - 1], bs),
              input[Offset(k - 1, bs)..Offset(k, bs)])
  }

  /** As many of the first `n` blocks as the input has in full. */
  ghost function PatchAsFar(c: Data, blocks: seq<nat>, bs: nat, input: Data, n: nat): Data
    requires n <= |blocks|
  {
    if n == 0 then c
    else if Offset(n, bs) <= |input| then PatchPrefix(c, blocks, bs, input, n)
    else PatchAsFar(c, blocks, bs, input, n - 1)
  }

  /** The input ends within block `k`. */
  lemma {:induction false} PatchStopsAt(c: Data, blocks: seq<nat>, bs: nat, input: Data, k: nat, n: nat)
    requires k < n <= |blocks| && Offset(k, bs) <= |input| < Offset(k, bs) + bs
    ensures PatchAsFar(c, blocks, bs, input, n) == PatchPrefix(c, blocks, bs, input, k)
  {
    TimesApart(k, n, bs);
    if n > k + 1 {
      PatchStopsAt(c, blocks, bs, input, k, n - 1);
    }
  }

  lemma NextOffset(k: nat, bs: nat)
    ensures Offset(k + 1, bs) == Offset(k, bs) + bs
  {
  }

  lemma PatchPrefixStep(c: Data, blocks: seq<nat>, bs: nat, input: Data, k: nat)
    requires k < |blocks| && Offset(k + 1, bs) == Offset(k, bs) + bs <= |input|
    ensures PatchPrefix(c, blocks, bs, input, k + 1)
         == WriteAt(PatchPrefix(c, blocks, bs, input, k), Offset(blocks[k], bs), input[Offset(k, bs)..Offset(k, bs) + bs])
  {
  }

  /** The size of the last block written: the remainder, or a full block when there is none. */
  function LastSize(length: nat, bs: nat): (n: nat)
    requires bs > 0
    ensures 0 < n <= bs
  {
    if length % bs != 0 then length % bs else bs
  }

  /** The bytes a patch takes from the stream. */
  function Consumed(d: Deltas, bs: nat): nat
    requires bs > 0 && d.blocks != []
  {
    Offset(|d.blocks| - 1, bs) + LastSize(d.length, bs)
  }

  /** The patched file, given enough input. */
  ghost function PatchedContent(c: Data, size: nat, d: Deltas, bs: nat, input: Data): Data
    requires bs > 0 && d.blocks != [] && Consumed(d, bs) <= |input|
  {
    var n := |d.blocks| - 1;
    Resize(WriteAt(PatchPrefix(c, d.blocks, bs, input, n), Offset(d.blocks[n], bs),
                   input[Offset(n, bs)..Consumed(d, bs)]), size)
  }

  /** Overwrite one block from the stream; false when the stream ends first. */
  method PatchBlock(f: OpenFile, index: nat, stream: ChunkStream, size: nat, bs: nat) returns (ok: bool)
    requires stream.Valid()
    modifies f, stream
    ensures stream.Valid()
    ensures ok <==> size <= |old(stream.rest)|
    ensures ok ==> f.content == WriteAt(old(f.content), Offset(index, bs), old(stream.rest)[..size])
    ensures ok ==> stream.rest == old(stream.rest)[size..]
    ensures !ok ==> f.content == old(f.content)
  {
    f.Seek(Offset(index, bs));
    while |stream.buffer| < size
      invariant stream.Valid() && stream.rest == old(stream.rest)
      invariant f.pos == Offset(index, bs) && f.content == old(f.content)
      decreases |stream.pending|
    {
      var more := stream.Refill();
      if !more {
        return false;
      }
    }
    var data := stream.ReadBuffered(size);
    f.Write(data);
    ok := true;
  }

  /**
   * The source refills by writing at the read cursor. Over the bytes not read yet, that is the append of
   * this model exactly when there are none, or nothing is written.
   */
  lemma RefillAtCursorAppendsIff(unread: Data, chunk: Data)
    ensures WriteAt(unread, 0, chunk) == unread + chunk <==> unread == [] || chunk == []
  {
    if unread == [] {
      assert [] + chunk == chunk;
    } else if chunk != [] {
      WriteAtBytes(unread, 0, chunk, 0);
      assert |WriteAt(unread, 0, chunk)| < |unread + chunk|;
    }
  }

  /** Overwrite the first `n` listed blocks, each with a full block from the stream. */
  method PatchFullBlocks(f: OpenFile, blocks: seq<nat>, n: nat, stream: ChunkStream, bs: nat) returns (ok: bool)
    requires n <= |blocks| && stream.Valid()
    modifies f, stream
    ensures stream.Valid()
    ensures ok <==> Offset(n, bs) <= |old(stream.rest)|
    ensures ok ==> f.content == PatchPrefix(old(f.content), blocks, bs, old(stream.rest), n)
    ensures ok ==> stream.rest == old(stream.rest)[Offset(n, bs)..]
    ensures !ok ==> f.content == PatchAsFar(old(f.content), blocks, bs, old(stream.rest), n)
  {
    ghost var input, c := stream.rest, f.content;
    ghost var at: nat, patched := 0, c;
    for k := 0 to n
      invariant stream.Valid()
      invariant at == Offset(k, bs) <= |input| && stream.rest == input[at..]
      invariant f.content == patched == PatchPrefix(c, blocks, bs, input, k)
    {
      TimesApart(k, n, bs);
      ok := PatchBlock(f, blocks[k], stream, bs, bs);
      if !ok {
        PatchStopsAt(c, blocks, bs, input, k, n);
        return;
      }
      DropThen(input, at, bs);
      NextOffset(k, bs);
      PatchPrefixStep(c, blocks, bs, input, k);
      at, patched := at + bs, f.content;
    }
    ok := true;
  }

  lemma PatchedIs(c: Data, size: nat, d: Deltas, bs: nat, input: Data, chunk: Data)
    requires bs > 0 && d.blocks != [] && Consumed(d, bs) <= |input|
    requires chunk == input[Offset(|d.blocks| - 1, bs)..Consumed(d, bs)]
    ensures var n := |d.blocks| - 1;
            PatchedContent(c, size, d, bs, input)
            == Resize(WriteAt(PatchPrefix(c, d.blocks, bs, input, n), Offset(d.blocks[n], bs), chunk), size)
  {
  }

  lemma LastBlock(c: Data, size: nat, d: Deltas, bs: nat, input: Data)
    requires bs > 0 && d.blocks != [] && Consumed(d, bs) <= |input|
    ensures var n, lastSize := |d.blocks| - 1, LastSize(d.length, bs);
            var rest := input[Offset(n, bs)..];
            && rest[lastSize..] == input[Consumed(d, bs)..]
            && PatchedContent(c, size, d, bs, input)
               == Resize(WriteAt(PatchPrefix(c, d.blocks, bs, input, n), Offset(d.blocks[n], bs), rest[..lastSize]), size)
  {
    var at, lastSize := Offset(|d.blocks| - 1, bs), LastSize(d.length, bs);
    DropThen(input, at, lastSize);
    PatchedIs(c, size, d, bs, input, input[at..][..lastSize]);
  }

  /** Patch a file in place and truncate it. */
  method PatchRegFile(f: OpenFile, size: nat, stream: ChunkStream, d: Deltas, bs: nat) returns (ok: bool)
    requires bs > 0 && d.blocks != [] && d.length > 0 && stream.Valid()
    modifies f, stream
    ensures stream.Valid()
    ensures ok <==> Consumed(d, bs) <= |old(stream.rest)|
    ensures ok ==> f.content == PatchedContent(old(f.content), size, d, bs, old(stream.rest))
    ensures ok ==> stream.rest == old(stream.rest)[Consumed(d, bs)..]
    ensures !ok ==> f.content == PatchAsFar(old(f.content), d.blocks, bs, old(stream.rest), |d.blocks| - 1)
  {
    ghost var c, input := f.content, stream.rest;
    var lastSize, n := LastSize(d.length, bs), |d.blocks| - 1;
    ok := PatchFullBlocks(f, d.blocks, n, stream, bs);
    if ok {
      ok := PatchBlock(f, d.blocks[n], stream, lastSize, bs);
      if ok {
        LastBlock(c, size, d, bs, input);
        f.Truncate(size);
      }
    }
  }

  /** Write a whole file from the stream; false when the stream ends first. */
  method CreateRegFile(size: nat, stream: ChunkStream) returns (ok: bool, content: Data)
    requires stream.Valid()
    modifies stream
    ensures stream.Valid()
    ensures ok <==> size <= |old(stream.rest)|
    ensures ok ==> content == old(stream.rest)[..size] && stream.rest == old(stream.rest)[size..]
    ensures !ok ==> content == old(stream.rest) && stream.rest == []
  {
    var f := new OpenFile([]);
    ghost var input := stream.rest;
    while f.pos < size
      invariant stream.Valid()
      invariant f.pos == |f.content| <= size
      invariant input == f.content + stream.rest
      decreases |stream.pending|, size - f.pos
    {
      var data := stream.ReadBuffered(size - f.pos);
      if data == [] {
        var more := stream.Refill();
        if !more {
          return false, f.content;
        }
      } else {
        Associative(f.content, data, stream.rest);
        f.Append(data);
      }
    }
    return true, f.content;
  }

  // ---------- the round trip of one file ----------

  /** No block kept its digests while its bytes changed. */
  ghost predicate NoCollision(before: Data, after: Data, bs: nat, h: Hash)
    requires bs > 0
  {
    forall i: nat :: i < BlockCount(|after|, bs) && Matches(SignatureOf(before, bs, h), i, BlockAt(after, bs, i), h)
      ==> BlockAt(before, bs, i) == BlockAt(after, bs, i)
  }

  /** Every block before another block of the file is a full one. */
  lemma EarlierBlockIsFull(data: Data, bs: nat, i: nat, j: nat)
    requires bs > 0 && i < j < BlockCount(|data|, bs)
    ensures |BlockAt(data, bs, i)| == bs
  {
    BlockBelowCount(|data|, bs, j);
    TimesApart(i, j, bs);
  }

  ghost predicate BlocksOf(blocks: seq<nat>, data: Data, bs: nat)
    requires bs > 0
  {
    Increasing(blocks) && forall j :: 0 <= j < |blocks| ==> blocks[j] < BlockCount(|data|, bs)
  }

  /** The first `k` of at least `k + 1` changed blocks are full. */
  lemma {:induction false} DeltaPrefixIsFull(data: Data, bs: nat, blocks: seq<nat>, k: nat)
    requires bs > 0 && k < |blocks| && BlocksOf(blocks, data, bs)
    ensures |DeltaBytes(data, bs, blocks[..k])| == Offset(k, bs)
  {
    if k > 0 {
      DeltaPrefixIsFull(data, bs, blocks, k - 1);
      assert blocks[..k][..k - 1] == blocks[..k - 1];
      EarlierBlockIsFull(data, bs, blocks[k - 1], blocks[k]);
    }
  }

  /** `DeltaBytes` of a prefix of the list is a prefix of the bytes. */
  lemma {:induction false} DeltaBytesPrefix(data: Data, bs: nat, blocks: seq<nat>, k: nat)
    requires k <= |blocks|
    ensures DeltaBytes(data, bs, blocks[..k]) <= DeltaBytes(data, bs, blocks)
  {
    if k == |blocks| {
      assert blocks[..k] == blocks;
    } else {
      var p := blocks[..|blocks| - 1];
      DeltaBytesPrefix(data, bs, p, k);
      assert p[..k] == blocks[..k];
    }
  }

  /** The `k`-th chunk of the shipped bytes is the `k`-th changed block. */
  lemma ChunkIsBlock(data: Data, bs: nat, blocks: seq<nat>, k: nat)
    requires bs > 0 && k < |blocks| && BlocksOf(blocks, data, bs)
    ensures var block, all := BlockAt(data, bs, blocks[k]), DeltaBytes(data, bs, blocks);
            Offset(k, bs) + |block| <= |all| && all[Offset(k, bs)..Offset(k, bs) + |block|] == block
  {
    DeltaPrefixIsFull(data, bs, blocks, k);
    DeltaBytesPrefix(data, bs, blocks, k + 1);
    assert blocks[..k + 1][..k] == blocks[..k];
    var part := DeltaBytes(data, bs, blocks[..k + 1]);
    assert part == DeltaBytes(data, bs, blocks)[..|part|];
  }

  lemma InputChunk(data: Data, bs: nat, blocks: seq<nat>, input: Data, k: nat)
    requires bs > 0 && k < |blocks| && BlocksOf(blocks, data, bs)
    requires DeltaBytes(data, bs, blocks) <= input
    ensures var block := BlockAt(data, bs, blocks[k]);
            Offset(k, bs) + |block| <= |input| && input[Offset(k, bs)..Offset(k, bs) + |block|] == block
  {
    ChunkIsBlock(data, bs, blocks, k);
    SliceOfPrefix(DeltaBytes(data, bs, blocks), input, Offset(k, bs), Offset(k, bs) + |BlockAt(data, bs, blocks[k])|);
  }

  lemma SliceOfPrefix(a: Data, b: Data, lo: nat, hi: nat)
    requires a <= b && lo <= hi <= |a|
    ensures a[lo..hi] == b[lo..hi]
  {
  }

  /** The old file after the first `k` changed blocks of the new one were written into it. */
  ghost function Overwritten(c: Data, data: Data, bs: nat, blocks: seq<nat>, k: nat): Data
    requires k <= |blocks|
  {
    if k == 0 then c
    else WriteAt(Overwritten(c, data, bs, blocks, k - 1), Offset(blocks[k - 1], bs), BlockAt(data, bs, blocks[k - 1]))
  }

  lemma {:induction false} PatchPrefixOverwrites(c: Data, data: Data, bs: nat, blocks: seq<nat>, input: Data, k: nat)
    requires bs > 0 && k < |blocks| && BlocksOf(blocks, data, bs)
    requires DeltaBytes(data, bs, blocks) <= input
    ensures Offset(k, bs) <= |input|
    ensures PatchPrefix(c, blocks, bs, input, k) == Overwritten(c, data, bs, blocks, k)
  {
    InputChunk(data, bs, blocks, input, k);
    if k > 0 {
      PatchPrefixOverwrites(c, data, bs, blocks, input, k - 1);
      NextChunk(data, bs, blocks, input, k - 1);
    }
  }

  lemma NextChunk(data: Data, bs: nat, blocks: seq<nat>, input: Data, k: nat)
    requires bs > 0 && k + 1 < |blocks| && BlocksOf(blocks, data, bs)
    requires DeltaBytes(data, bs, blocks) <= input
    ensures Offset(k, bs) <= Offset(k + 1, bs) <= |input|
    ensures input[Offset(k, bs)..Offset(k + 1, bs)] == BlockAt(data, bs, blocks[k])
  {
    InputChunk(data, bs, blocks, input, k);
    EarlierBlockIsFull(data, bs, blocks[k], blocks[k + 1]);
  }

  /** The byte total determines how many bytes the last block has. */
  lemma ConsumedIsTotal(data: Data, bs: nat, blocks: seq<nat>)
    requires bs > 0 && blocks != [] && BlocksOf(blocks, data, bs)
    ensures var total := |DeltaBytes(data, bs, blocks)|;
            total > 0 && Consumed(Deltas(total, blocks), bs) == total
            && LastSize(total, bs) == |BlockAt(data, bs, blocks[|blocks| - 1])|
  {
    var n := |blocks| - 1;
    DeltaPrefixIsFull(data, bs, blocks, n);
    BlockBelowCount(|data|, bs, blocks[n]);
    var last := |BlockAt(data, bs, blocks[n])|;
    TimesIsProduct(n, bs);
    RemainderOfTotal(n, bs, last);
  }

  lemma RemainderOfTotal(n: nat, bs: nat, last: nat)
    requires 0 < last <= bs
    ensures (n * bs + last) % bs == if last == bs then 0 else last
  {
    if last == bs {
      RemainderIs(n * bs + last, bs, n + 1, 0);
    } else {
      RemainderIs(n * bs + last, bs, n, last);
    }
  }

  /** Position `p` lies in one of the first `k` listed blocks. */
  ghost predicate Covered(p: nat, bs: nat, blocks: seq<nat>, k: nat)
    requires k <= |blocks|
  {
    exists j :: 0 <= j < k && Offset(blocks[j], bs) <= p < Offset(blocks[j], bs) + bs
  }

  /** Writing one block of `data` puts its bytes in place and keeps every other byte. */
  lemma OverwriteStep(c: Data, data: Data, bs: nat, i: nat, p: nat)
    requires Offset(i, bs) <= |data|
    ensures var off, r := Offset(i, bs), WriteAt(c, Offset(i, bs), BlockAt(data, bs, i));
            if off <= p < off + bs && p < |data| then p < |r| && r[p] == data[p]
            else p < |c| ==> p < |r| && r[p] == c[p]
  {
    var off, block := Offset(i, bs), BlockAt(data, bs, i);
    WriteAtBytes(c, off, block, p);
    if off <= p < off + bs && p < |data| {
      assert block[p - off] == data[p];
    }
  }

  /** Listed blocks hold the new bytes, and every other old byte is still in place. */
  lemma {:induction false} OverwrittenBytes(c: Data, data: Data, bs: nat, blocks: seq<nat>, k: nat, p: nat)
    requires bs > 0 && k <= |blocks| && BlocksOf(blocks, data, bs)
    ensures var r := Overwritten(c, data, bs, blocks, k);
            && (p < |data| && Covered(p, bs, blocks, k) ==> p < |r| && r[p] == data[p])
            && (p < |c| && !Covered(p, bs, blocks, k) ==> p < |r| && r[p] == c[p])
  {
    if k > 0 {
      OverwrittenBytes(c, data, bs, blocks, k - 1, p);
      BlockBelowCount(|data|, bs, blocks[k - 1]);
      OverwriteStep(Overwritten(c, data, bs, blocks, k - 1), data, bs, blocks[k - 1], p);
      CoveredStep(p, bs, blocks, k);
    }
  }

  lemma CoveredStep(p: nat, bs: nat, blocks: seq<nat>, k: nat)
    requires 0 < k <= |blocks| && Increasing(blocks)
    ensures var off := Offset(blocks[k - 1], bs);
            && (Covered(p, bs, blocks, k) <==> Covered(p, bs, blocks, k - 1) || off <= p < off + bs)
            && (Covered(p, bs, blocks, k - 1) ==> p < off)
  {
    if Covered(p, bs, blocks, k - 1) {
      var j :| 0 <= j < k - 1 && Offset(blocks[j], bs) <= p < Offset(blocks[j], bs) + bs;
      TimesApart(blocks[j], blocks[k - 1], bs);
    }
  }

  /** The block a position lies in. */
  lemma {:induction false} BlockHolding(p: nat, bs: nat) returns (i: nat)
    requires bs > 0
    ensures Offset(i, bs) <= p < Offset(i, bs) + bs
    decreases p
  {
    if p < bs {
      i := 0;
    } else {
      i := BlockHolding(p - bs, bs);
      i := i + 1;
    }
  }

  /** Equal blocks hold equal bytes. */
  lemma SameBlockSameByte(before: Data, after: Data, bs: nat, i: nat, p: nat)
    requires BlockAt(before, bs, i) == BlockAt(after, bs, i)
    requires Offset(i, bs) <= p < Offset(i, bs) + bs && p < |after|
    ensures p < |before| && before[p] == after[p]
  {
    var o := Offset(i, bs);
    assert BlockAt(after, bs, i)[p - o] == after[p];
    assert BlockAt(before, bs, i)[p - o] == before[p];
  }

  /** The block of an uncovered position kept its digests. */
  lemma UncoveredBlockMatches(data: Data, sig: Signature, bs: nat, h: Hash, p: nat) returns (i: nat)
    requires bs > 0 && p < |data|
    requires var d := DeltasOf(data, sig, bs, h); !Covered(p, bs, d.blocks, |d.blocks|)
    ensures i < BlockCount(|data|, bs) && Matches(sig, i, BlockAt(data, bs, i), h)
    ensures Offset(i, bs) <= p < Offset(i, bs) + bs
  {
    var n := BlockCount(|data|, bs);
    var blocks := ChangedBlocks(data, sig, bs, h, n);
    i := BlockHolding(p, bs);
    BlockBelowCount(|data|, bs, i);
    ChangedBlocksMembers(data, sig, bs, h, n, i);
  }

  /** A position outside the changed blocks holds the same byte in both files. */
  lemma UncoveredByteIsOld(before: Data, after: Data, bs: nat, h: Hash, p: nat)
    requires bs > 0 && NoCollision(before, after, bs, h) && p < |after|
    requires var d := DeltasOf(after, SignatureOf(before, bs, h), bs, h);
             !Covered(p, bs, d.blocks, |d.blocks|)
    ensures p < |before| && before[p] == after[p]
  {
    var i := UncoveredBlockMatches(after, SignatureOf(before, bs, h), bs, h, p);
    SameBlockSameByte(before, after, bs, i, p);
  }

  /** The patch writes every changed block of the new file and then fixes the length. */
  lemma PatchWritesChangedBlocks(before: Data, data: Data, bs: nat, blocks: seq<nat>, rest: Data)
    requires bs > 0 && blocks != [] && BlocksOf(blocks, data, bs)
    ensures var shipped := DeltaBytes(data, bs, blocks);
            var d := Deltas(|shipped|, blocks);
            Consumed(d, bs) == |shipped|
            && PatchedContent(before, |data|, d, bs, shipped + rest)
               == Resize(Overwritten(before, data, bs, blocks, |blocks|), |data|)
  {
    var shipped := DeltaBytes(data, bs, blocks);
    ConsumedIsTotal(data, bs, blocks);
    PatchPrefixOverwrites(before, data, bs, blocks, shipped + rest, |blocks| - 1);
    InputChunk(data, bs, blocks, shipped + rest, |blocks| - 1);
  }

  /** What a file gives at a position, zero past its end. */
  function ByteOrZero(data: Data, p: nat): Byte {
    if p < |data| then data[p] else 0
  }

  /** One more written block leaves positions past the old end zero, unless it covers them. */
  lemma GapStep(c: Data, r: Data, off: nat, block: Data, p: nat)
    requires r == WriteAt(c, off, block) && |c| <= p < |r| && !(off <= p < off + |block|)
    ensures r[p] == 0
  {
    WriteAtBytes(c, off, block, p);
  }

  lemma {:induction false} GapsAreZero(c: Data, data: Data, bs: nat, blocks: seq<nat>, k: nat, p: nat)
    requires bs > 0 && k <= |blocks| && BlocksOf(blocks, data, bs) && |c| <= p < |data|
    requires !Covered(p, bs, blocks, k)
    ensures var r := Overwritten(c, data, bs, blocks, k); p < |r| ==> r[p] == 0
  {
    if k > 0 {
      CoveredStep(p, bs, blocks, k);
      GapsAreZero(c, data, bs, blocks, k - 1, p);
      var q := Overwritten(c, data, bs, blocks, k - 1);
      var off, block := Offset(blocks[k - 1], bs), BlockAt(data, bs, blocks[k - 1]);
      BlockBelowCount(|data|, bs, blocks[k - 1]);
      if p < |q| {
        WriteAtBytes(q, off, block, p);
      } else if p < |WriteAt(q, off, block)| {
        GapStep(q, WriteAt(q, off, block), off, block, p);
      }
    }
  }

  /**
   * Whatever the digests missed: patching gives the new file exactly when every byte outside the shipped
   * blocks is the old file's byte, or zero past its end.
   */
  lemma PatchExactlyWhen(before: Data, after: Data, bs: nat, blocks: seq<nat>, rest: Data)
    requires bs > 0 && blocks != [] && BlocksOf(blocks, after, bs)
    ensures var shipped := DeltaBytes(after, bs, blocks);
            var d := Deltas(|shipped|, blocks);
            Consumed(d, bs) == |shipped|
            && (PatchedContent(before, |after|, d, bs, shipped + rest) == after <==>
                forall p: nat :: p < |after| && !Covered(p, bs, blocks, |blocks|) ==> after[p] == ByteOrZero(before, p))
  {
    PatchWritesChangedBlocks(before, after, bs, blocks, rest);
    var r := Overwritten(before, after, bs, blocks, |blocks|);
    var z := Resize(r, |after|);
    forall p: nat | p < |after|
      ensures z[p] == if Covered(p, bs, blocks, |blocks|) then after[p] else ByteOrZero(before, p)
    {
      OverwrittenBytes(before, after, bs, blocks, |blocks|, p);
      if !Covered(p, bs, blocks, |blocks|) && p >= |before| {
        GapsAreZero(before, after, bs, blocks, |blocks|, p);
      }
    }
  }

  /** The positions of a scan are blocks of the file. */
  lemma ScanIsBlocksOf(data: Data, sig: Signature, bs: nat, h: Hash)
    requires bs > 0
    ensures var d := DeltasOf(data, sig, bs, h);
            BlocksOf(d.blocks, data, bs) && (d.length > 0 <==> d.blocks != [])
  {
    var blocks := DeltasOf(data, sig, bs, h).blocks;
    ChangedBlocksIncrease(data, sig, bs, h, BlockCount(|data|, bs));
    if blocks != [] {
      ConsumedIsTotal(data, bs, blocks);
    }
  }

  /**
   * One file, all contents, all block sizes: the shipped blocks are consumed to the byte and
   * patching the old file with them gives the new one.
   */
  lemma PatchRoundTrip(before: Data, after: Data, bs: nat, h: Hash, rest: Data)
    requires bs > 0 && NoCollision(before, after, bs, h)
    requires DeltasOf(after, SignatureOf(before, bs, h), bs, h).length > 0
    ensures var d := DeltasOf(after, SignatureOf(before, bs, h), bs, h);
            var shipped := DeltaBytes(after, bs, d.blocks);
            d.blocks != [] && Consumed(d, bs) == d.length == |shipped|
            && PatchedContent(before, |after|, d, bs, shipped + rest) == after
  {
    var d := DeltasOf(after, SignatureOf(before, bs, h), bs, h);
    ScanIsBlocksOf(after, SignatureOf(before, bs, h), bs, h);
    forall p: nat | p < |after| && !Covered(p, bs, d.blocks, |d.blocks|)
      ensures p < |before| && before[p] == after[p]
    {
      UncoveredByteIsOld(before, after, bs, h, p);
    }
    PatchExactlyWhen(before, after, bs, d.blocks, rest);
  }

  lemma {:induction false} PatchPrefixIsLocal(c: Data, blocks: seq<nat>, bs: nat, input: Data, n: nat, k: nat)
    requires n <= |blocks| && Offset(n, bs) <= k <= |input|
    ensures PatchPrefix(c, blocks, bs, input[..k], n) == PatchPrefix(c, blocks, bs, input, n)
  {
    if n > 0 {
      TimesApart(n - 1, n, bs);
      PatchPrefixIsLocal(c, blocks, bs, input, n - 1, k);
      SliceOfPrefix(input[..k], input, Offset(n - 1, bs), Offset(n, bs));
    }
  }

  /** A patch depends on the bytes it consumes alone. */
  lemma PatchIsLocal(c: Data, size: nat, d: Deltas, bs: nat, input: Data, k: nat)
    requires bs > 0 && d.blocks != [] && Consumed(d, bs) <= k <= |input|
    ensures PatchedContent(c, size, d, bs, input[..k]) == PatchedContent(c, size, d, bs, input)
  {
    var n := |d.blocks| - 1;
    PatchPrefixIsLocal(c, d.blocks, bs, input, n, k);
    SliceOfPrefix(input[..k], input, Offset(n, bs), Consumed(d, bs));
  }

  /** What a scan with `bs` ships, patched under `bs'`, is consumed to the byte and gives the new file. */
  ghost predicate PatchesTo(before: Data, after: Data, sig: Signature, bs: nat, bs': nat, h: Hash)
    requires bs > 0 && bs' > 0
  {
    var d := DeltasOf(after, sig, bs, h);
    d.length > 0 ==>
      var shipped := DeltaBytes(after, bs, d.blocks);
      && d.blocks != [] && Consumed(d, bs') == |shipped|
      && PatchedContent(before, |after|, d, bs', shipped) == after
  }

  /** Under its own size that holds wherever no digests collide. */
  lemma OwnSizePatches(before: Data, after: Data, bs: nat, h: Hash)
    requires bs > 0 && NoCollision(before, after, bs, h)
    ensures PatchesTo(before, after, SignatureOf(before, bs, h), bs, bs, h)
  {
    var d := DeltasOf(after, SignatureOf(before, bs, h), bs, h);
    if d.length > 0 {
      PatchRoundTrip(before, after, bs, h, []);
      assert DeltaBytes(after, bs, d.blocks) + [] == DeltaBytes(after, bs, d.blocks);
    }
  }

  /**
   * The digests are the only evidence the engine has: with a strong digest that does not tell
   * two blocks of equal Adler-32 apart, a changed block is not shipped.
   */
  lemma CollisionIsNotShipped(tail: Data)
    ensures var h: Hash := _ => "";
            var before, after := [1, 0, 1] + tail, [0, 2, 0] + tail;
            !NoCollision(before, after, 3, h)
            && 0 !in DeltasOf(after, SignatureOf(before, 3, h), 3, h).blocks
  {
    var h: Hash := _ => "";
    var before, after := [1, 0, 1] + tail, [0, 2, 0] + tail;
    assert BlockAt(before, 3, 0) == [1, 0, 1] && BlockAt(after, 3, 0) == [0, 2, 0];
    Adler.AdlerOfThree(1, 0, 1);
    Adler.AdlerOfThree(0, 2, 0);
    assert Matches(SignatureOf(before, 3, h), 0, BlockAt(after, 3, 0), h);
    ChangedBlocksMembers(after, SignatureOf(before, 3, h), 3, h, BlockCount(|after|, 3), 0);
  }
}
