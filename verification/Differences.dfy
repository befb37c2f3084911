/**
 * What one backup level holds, told from the two trees alone: only the blocks that differ are shipped
 * (freezer/engine/rsyncv2/rsyncv2.py:599-730).
 */
module Differences {
  import opened Bytes
  import opened Files
  import opened BlockSignatures
  import opened BlockDelta
  import opened TreeDelta
  import opened TreeRestore

  // ---------- one file ----------

  /** Block `i` of the new file is not that of the old one. */
  predicate Differs(before: Data, after: Data, bs: nat, i: nat) {
    BlockAt(after, bs, i) != BlockAt(before, bs, i)
  }

  /** The first `n` blocks of the new file that differ, in order. */
  function DifferingBlocks(before: Data, after: Data, bs: nat, n: nat): seq<nat> {
    if n == 0 then []
    else DifferingBlocks(before, after, bs, n - 1) + if Differs(before, after, bs, n - 1) then [n - 1] else []
  }

  /** Their bytes, joined in order. */
  function DifferingBytes(before: Data, after: Data, bs: nat, n: nat): Data {
    if n == 0 then []
    else
      DifferingBytes(before, after, bs, n - 1)
      + if Differs(before, after, bs, n - 1) then BlockAt(after, bs, n - 1) else []
  }

  predicate SomeDiffer(before: Data, after: Data, bs: nat)
    requires bs > 0
  {
    exists i: nat :: i < BlockCount(|after|, bs) && Differs(before, after, bs, i)
  }

  lemma {:induction false} DifferingMembers(before: Data, after: Data, bs: nat, n: nat, i: nat)
    ensures i in DifferingBlocks(before, after, bs, n) <==> i < n && Differs(before, after, bs, i)
  {
    if n > 0 {
      DifferingMembers(before, after, bs, n - 1, i);
    }
  }

  lemma SomeDifferIff(before: Data, after: Data, bs: nat)
    requires bs > 0
    ensures SomeDiffer(before, after, bs) <==> DifferingBlocks(before, after, bs, BlockCount(|after|, bs)) != []
  {
    var n := BlockCount(|after|, bs);
    if SomeDiffer(before, after, bs) {
      var i: nat :| i < n && Differs(before, after, bs, i);
      DifferingMembers(before, after, bs, n, i);
    } else if DifferingBlocks(before, after, bs, n) != [] {
      DifferingMembers(before, after, bs, n, DifferingBlocks(before, after, bs, n)[0]);
    }
  }

  /** Equal blocks have equal digests, and by assumption the other way round. */
  lemma MatchesIffSame(before: Data, after: Data, bs: nat, h: Hash, i: nat)
    requires bs > 0 && NoCollision(before, after, bs, h) && i < BlockCount(|after|, bs)
    ensures Matches(SignatureOf(before, bs, h), i, BlockAt(after, bs, i), h) <==> !Differs(before, after, bs, i)
  {
    BlockBelowCount(|after|, bs, i);
    BlockBelowCount(|before|, bs, i);
    if !Differs(before, after, bs, i) {
      assert BlockAt(after, bs, i) != [];
      assert i < BlockCount(|before|, bs);
    }
  }

  lemma {:induction false} ScanListsDifferences(before: Data, after: Data, bs: nat, h: Hash, n: nat)
    requires bs > 0 && NoCollision(before, after, bs, h) && n <= BlockCount(|after|, bs)
    ensures ChangedBlocks(after, SignatureOf(before, bs, h), bs, h, n) == DifferingBlocks(before, after, bs, n)
  {
    if n > 0 {
      ScanListsDifferences(before, after, bs, h, n - 1);
      MatchesIffSame(before, after, bs, h, n - 1);
    }
  }

  lemma OneMoreBlock(data: Data, bs: nat, blocks: seq<nat>, i: nat)
    ensures DeltaBytes(data, bs, blocks + [i]) == DeltaBytes(data, bs, blocks) + BlockAt(data, bs, i)
  {
    assert (blocks + [i])[..|blocks|] == blocks;
  }

  lemma JoinStep(data: Data, bs: nat, blocks: seq<nat>, bytes: Data, i: nat, block: Data, more: bool)
    requires DeltaBytes(data, bs, blocks) == bytes && block == BlockAt(data, bs, i)
    ensures DeltaBytes(data, bs, blocks + if more then [i] else []) == bytes + if more then block else []
  {
    if more {
      OneMoreBlock(data, bs, blocks, i);
    } else {
      assert blocks + [] == blocks && bytes + [] == bytes;
    }
  }

  lemma DifferingStep(before: Data, after: Data, bs: nat, n: nat, block: Data, more: bool)
    requires n > 0 && block == BlockAt(after, bs, n - 1) && more == Differs(before, after, bs, n - 1)
    ensures DifferingBlocks(before, after, bs, n)
         == DifferingBlocks(before, after, bs, n - 1) + if more then [n - 1] else []
    ensures DifferingBytes(before, after, bs, n) == DifferingBytes(before, after, bs, n - 1) + if more then block else []
  {
  }

  lemma {:induction false} DeltasJoinDifferences(before: Data, after: Data, bs: nat, n: nat)
    ensures DeltaBytes(after, bs, DifferingBlocks(before, after, bs, n)) == DifferingBytes(before, after, bs, n)
  {
    if n > 0 {
      var block, more := BlockAt(after, bs, n - 1), Differs(before, after, bs, n - 1);
      DeltasJoinDifferences(before, after, bs, n - 1);
      DifferingStep(before, after, bs, n, block, more);
      JoinStep(after, bs, DifferingBlocks(before, after, bs, n - 1), DifferingBytes(before, after, bs, n - 1), n - 1,
               block, more);
    }
  }

  /** What a scan of the whole file finds. */
  lemma DeltasAreDifferences(before: Data, after: Data, bs: nat, h: Hash)
    requires bs > 0 && NoCollision(before, after, bs, h)
    ensures var d, n := DeltasOf(after, SignatureOf(before, bs, h), bs, h), BlockCount(|after|, bs);
            && d == Deltas(|DifferingBytes(before, after, bs, n)|, DifferingBlocks(before, after, bs, n))
            && DeltaBytes(after, bs, d.blocks) == DifferingBytes(before, after, bs, n)
            && (d.length > 0 <==> SomeDiffer(before, after, bs))
  {
    ScanListsDifferences(before, after, bs, h, BlockCount(|after|, bs));
    DeltasJoinDifferences(before, after, bs, BlockCount(|after|, bs));
    ScanIsBlocksOf(after, SignatureOf(before, bs, h), bs, h);
    SomeDifferIff(before, after, bs);
  }

  // ---------- one level ----------

  /** The file was there before with the same mode, and is compared with what it was. */
  predicate Kept(before: Tree, after: Tree, p: Path)
    requires p in after
  {
    p in before && before[p].stat.mode == after[p].stat.mode
  }

  /** Its stat did not change at all, and it is not looked at. */
  predicate Untouched(before: Tree, after: Tree, p: Path)
    requires p in after
  {
    p in before && before[p].stat == after[p].stat
  }

  /** It is shipped as the blocks that differ, and not as a whole. */
  predicate ByBlocks(before: Tree, after: Tree, p: Path, bs: nat)
    requires bs > 0 && p in after
  {
    Kept(before, after, p) && SomeDiffer(before[p].content, after[p].content, bs)
  }

  function ShippedBlocks(before: Tree, after: Tree, p: Path, bs: nat): Deltas
    requires bs > 0 && p in before && p in after
  {
    var n := BlockCount(|after[p].content|, bs);
    Deltas(|DifferingBytes(before[p].content, after[p].content, bs, n)|,
           DifferingBlocks(before[p].content, after[p].content, bs, n))
  }

  function ShippedBytes(before: Tree, after: Tree, p: Path, bs: nat): Data
    requires bs > 0 && p in after
  {
    if ByBlocks(before, after, p, bs) then
      DifferingBytes(before[p].content, after[p].content, bs, BlockCount(|after[p].content|, bs))
    else after[p].content
  }

  function HeaderOf(before: Tree, after: Tree, p: Path, bs: nat): Header
    requires bs > 0 && p in after
  {
    var f := after[p];
    Entry(p, f.stat.mode, f.stat.mtime, |f.content|, Kept(before, after, p),
          if ByBlocks(before, after, p, bs) then Some(ShippedBlocks(before, after, p, bs)) else None)
  }

  /** The headers of the files listed whose stat changed, then a mark for every path that is gone. */
  function HeadersBetween(before: Tree, after: Tree, listing: seq<Path>, bs: nat): seq<Header>
    requires bs > 0 && forall p :: p in listing ==> p in after
  {
    if listing == [] then []
    else
      var n := |listing| - 1;
      HeadersBetween(before, after, listing[..n], bs)
      + if Untouched(before, after, listing[n]) then [] else [HeaderOf(before, after, listing[n], bs)]
  }

  function MarksFor(after: Tree, oldListing: seq<Path>): seq<Header> {
    if oldListing == [] then []
    else (if oldListing[0] in after then [] else [Deleted(oldListing[0])]) + MarksFor(after, oldListing[1..])
  }

  /** The data of the files listed whose stat changed, in that order. */
  function BytesBetween(before: Tree, after: Tree, listing: seq<Path>, bs: nat): Data
    requires bs > 0 && forall p :: p in listing ==> p in after
  {
    if listing == [] then []
    else
      var n := |listing| - 1;
      BytesBetween(before, after, listing[..n], bs)
      + if Untouched(before, after, listing[n]) then [] else ShippedBytes(before, after, listing[n], bs)
  }

  /** The engine's entry of one file is the one that the two trees determine. */
  lemma EntryIsHeader(before: Tree, after: Tree, files: FilesMeta, bs: nat, h: Hash, p: Path)
    requires bs > 0 && Describes(files, before, bs, h) && NoCollisions(before, after, bs, h) && p in after
    requires !Untouched(before, after, p)
    ensures EntryFor(p, after[p], files, bs, h) == HeaderOf(before, after, p, bs)
  {
    if Kept(before, after, p) {
      DeltasAreDifferences(before[p].content, after[p].content, bs, h);
    }
  }

  lemma HeaderShips(before: Tree, after: Tree, p: Path, bs: nat)
    requires bs > 0 && p in after
    ensures PayloadOf(after, HeaderOf(before, after, p, bs), bs) == ShippedBytes(before, after, p, bs)
  {
    if ByBlocks(before, after, p, bs) {
      DeltasJoinDifferences(before[p].content, after[p].content, bs, BlockCount(|after[p].content|, bs));
    }
  }

  lemma {:induction false} EntriesAreHeaders(before: Tree, after: Tree, files: FilesMeta, bs: nat, h: Hash,
                                             listing: seq<Path>)
    requires bs > 0 && Describes(files, before, bs, h) && NoCollisions(before, after, bs, h)
    requires forall p :: p in listing ==> p in after
    ensures EntriesFor(after, listing, files, bs, h) == HeadersBetween(before, after, listing, bs)
  {
    if listing != [] {
      var n := |listing| - 1;
      var p := listing[n];
      EntriesAreHeaders(before, after, files, bs, h, listing[..n]);
      SkippedMeansSameStat(before, after, files, p);
      if !Untouched(before, after, p) {
        EntryIsHeader(before, after, files, bs, h, p);
      }
    }
  }

  /** The data of these headers, in this order. */
  lemma {:induction false} HeadersShip(before: Tree, after: Tree, listing: seq<Path>, bs: nat)
    requires bs > 0 && forall p :: p in listing ==> p in after
    ensures var headers := HeadersBetween(before, after, listing, bs);
            HeadersIn(after, headers) && Payload(after, headers, bs) == BytesBetween(before, after, listing, bs)
  {
    if listing != [] {
      var n := |listing| - 1;
      var p, early := listing[n], HeadersBetween(before, after, listing[..n], bs);
      HeadersShip(before, after, listing[..n], bs);
      if Untouched(before, after, p) {
        assert early + [] == early;
      } else {
        HeaderShips(before, after, p, bs);
        SnocHeader(after, early, HeaderOf(before, after, p, bs), bs);
      }
    }
  }

  lemma MarkAddsNothing(after: Tree, headers: seq<Header>, marks: seq<Header>, p: Path, bs: nat)
    requires HeadersIn(after, headers + marks)
    ensures HeadersIn(after, headers + (marks + [Deleted(p)]))
    ensures Payload(after, headers + (marks + [Deleted(p)]), bs) == Payload(after, headers + marks, bs)
  {
    SnocHeader(after, headers + marks, Deleted(p), bs);
    assert headers + (marks + [Deleted(p)]) == (headers + marks) + [Deleted(p)];
  }

  lemma {:induction false} MarksAddNothing(after: Tree, headers: seq<Header>, oldListing: seq<Path>, bs: nat)
    requires HeadersIn(after, headers)
    ensures HeadersIn(after, headers + DeletionsFor(after, oldListing))
    ensures Payload(after, headers + DeletionsFor(after, oldListing), bs) == Payload(after, headers, bs)
  {
    if oldListing == [] {
      assert headers + [] == headers;
    } else {
      var n := |oldListing| - 1;
      var marks := DeletionsFor(after, oldListing[..n]);
      MarksAddNothing(after, headers, oldListing[..n], bs);
      if oldListing[n] in after {
        assert marks + [] == marks;
      } else {
        MarkAddsNothing(after, headers, marks, oldListing[n], bs);
      }
    }
  }

  lemma {:induction false} MarksSnoc(after: Tree, a: seq<Path>, p: Path)
    ensures MarksFor(after, a + [p]) == MarksFor(after, a) + if p in after then [] else [Deleted(p)]
  {
    if a == [] {
      assert [] + [p] == [p] && [p][1..] == [];
    } else {
      MarksSnoc(after, a[1..], p);
      assert (a + [p])[1..] == a[1..] + [p];
    }
  }

  lemma {:induction false} DeletionsAreMarks(after: Tree, oldListing: seq<Path>)
    ensures DeletionsFor(after, oldListing) == MarksFor(after, oldListing)
  {
    if oldListing != [] {
      var n := |oldListing| - 1;
      DeletionsAreMarks(after, oldListing[..n]);
      MarksSnoc(after, oldListing[..n], oldListing[n]);
      assert oldListing == oldListing[..n] + [oldListing[n]];
    }
  }

  /**
   * A whole level, without digests or signatures: over metadata that describe the old tree, and where digests
   * tell blocks apart, the headers and the data are those that the two trees and the block size determine.
   */
  lemma LevelIsDifference(before: Tree, after: Tree, listing: seq<Path>, oldListing: seq<Path>,
                          manifest: Option<Manifest>, configured: nat, h: Hash)
    requires configured > 0
    requires var bs := AdoptedBlockSize(manifest, configured);
             Describes(OldFiles(manifest), before, bs, h) && NoCollisions(before, after, bs, h)
    requires Lists(listing, after.Keys) && Lists(oldListing, before.Keys)
    ensures var l := LevelFor(after, listing, manifest, oldListing, configured, h);
            var bs := AdoptedBlockSize(manifest, configured);
            && l.headers == HeadersBetween(before, after, listing, bs) + MarksFor(after, oldListing)
            && l.payload == BytesBetween(before, after, listing, bs)
  {
    var files, bs := OldFiles(manifest), AdoptedBlockSize(manifest, configured);
    EntriesAreHeaders(before, after, files, bs, h, listing);
    HeadersShip(before, after, listing, bs);
    MarksAddNothing(after, HeadersBetween(before, after, listing, bs), oldListing, bs);
    DeletionsAreMarks(after, oldListing);
  }

  lemma {:induction false} HeaderListed(before: Tree, after: Tree, listing: seq<Path>, bs: nat, p: Path)
    requires bs > 0 && (forall q :: q in listing ==> q in after) && p in listing && !Untouched(before, after, p)
    ensures HeaderOf(before, after, p, bs) in HeadersBetween(before, after, listing, bs)
  {
    var n := |listing| - 1;
    if listing[n] != p {
      assert listing == listing[..n] + [listing[n]];
      HeaderListed(before, after, listing[..n], bs, p);
    }
  }

  lemma {:induction false} DifferingIncrease(before: Data, after: Data, bs: nat, n: nat)
    ensures Increasing(DifferingBlocks(before, after, bs, n))
    ensures forall i :: i in DifferingBlocks(before, after, bs, n) ==> i < n
  {
    if n > 0 {
      var blocks := DifferingBlocks(before, after, bs, n - 1);
      DifferingIncrease(before, after, bs, n - 1);
      assert forall j :: 0 <= j < |blocks| ==> blocks[j] in blocks;
    }
  }

  /**
   * For every file that was there before with the same mode: exactly the blocks that differ from the old block
   * at their position are shipped, in order, and the whole file exactly when none differs.
   */
  lemma OnlyDifferencesShipped(before: Tree, after: Tree, p: Path, bs: nat)
    requires bs > 0 && p in before && p in after && before[p].stat.mode == after[p].stat.mode
    ensures var c, d, x := before[p].content, after[p].content, HeaderOf(before, after, p, bs);
            var n := BlockCount(|d|, bs);
            && (x.deltas.None? <==> forall i: nat :: i < n ==> !Differs(c, d, bs, i))
            && (x.deltas.None? ==> PayloadOf(after, x, bs) == d)
            && (x.deltas.Some? ==>
                  && PayloadOf(after, x, bs) == DifferingBytes(c, d, bs, n)
                  && x.deltas.value.length == |DifferingBytes(c, d, bs, n)|
                  && Increasing(x.deltas.value.blocks)
                  && forall i: nat :: i in x.deltas.value.blocks <==> i < n && Differs(c, d, bs, i))
  {
    var c, d := before[p].content, after[p].content;
    var n := BlockCount(|d|, bs);
    HeaderShips(before, after, p, bs);
    DifferingIncrease(c, d, bs, n);
    forall i: nat ensures i in DifferingBlocks(c, d, bs, n) <==> i < n && Differs(c, d, bs, i) {
      DifferingMembers(c, d, bs, n, i);
    }
  }

  /** And such a header is in the level exactly for a file whose stat changed. */
  lemma LevelHoldsHeader(before: Tree, after: Tree, listing: seq<Path>, oldListing: seq<Path>,
                         manifest: Option<Manifest>, configured: nat, h: Hash, p: Path)
    requires configured > 0
    requires var bs := AdoptedBlockSize(manifest, configured);
             Describes(OldFiles(manifest), before, bs, h) && NoCollisions(before, after, bs, h)
    requires Lists(listing, after.Keys) && Lists(oldListing, before.Keys) && p in after
    ensures var headers := LevelFor(after, listing, manifest, oldListing, configured, h).headers;
            && (!Untouched(before, after, p) ==>
                  HeaderOf(before, after, p, AdoptedBlockSize(manifest, configured)) in headers)
            && (forall x :: x in headers && x.path == p ==>
                  !Untouched(before, after, p) && x == HeaderOf(before, after, p, AdoptedBlockSize(manifest, configured)))
  {
    var bs := AdoptedBlockSize(manifest, configured);
    LevelIsDifference(before, after, listing, oldListing, manifest, configured, h);
    if !Untouched(before, after, p) {
      HeaderListed(before, after, listing, bs, p);
    }
    OnlyItsHeader(before, after, listing, bs, p);
    NoMarkInTree(after, oldListing, p);
  }

  lemma {:induction false} OnlyItsHeader(before: Tree, after: Tree, listing: seq<Path>, bs: nat, p: Path)
    requires bs > 0 && (forall q :: q in listing ==> q in after) && p in after
    ensures forall x :: x in HeadersBetween(before, after, listing, bs) && x.path == p ==>
              !Untouched(before, after, p) && x == HeaderOf(before, after, p, bs)
  {
    if listing != [] {
      OnlyItsHeader(before, after, listing[..|listing| - 1], bs, p);
    }
  }

  lemma {:induction false} NoMarkInTree(after: Tree, oldListing: seq<Path>, p: Path)
    requires p in after
    ensures forall x :: x in MarksFor(after, oldListing) ==> x.path != p
  {
    if oldListing != [] {
      NoMarkInTree(after, oldListing[1..], p);
    }
  }
}
