/** What a level leaves behind whose data end early (freezer/engine/rsyncv2/rsyncv2.py:199-212, 321-331, 437-471). */
module CutStreams {
  import opened Bytes
  import opened Files
  import opened BlockSignatures
  import opened BlockDelta
  import opened TreeDelta
  import opened TreeRestore
  import opened Differences

  // ---------- one file ----------

  /** As many of the first `n` blocks as `m` bytes hold whole. */
  function WholeBlocks(m: nat, bs: nat, n: nat): (w: nat)
    ensures w <= n && Offset(w, bs) <= m
  {
    if Offset(n, bs) <= m then n else WholeBlocks(m, bs, n - 1)
  }

  /** And no more. */
  lemma {:induction false} NoMoreBlocks(m: nat, bs: nat, n: nat)
    ensures var w := WholeBlocks(m, bs, n); w < n ==> m < Offset(w + 1, bs)
  {
    if Offset(n, bs) > m && n > 0 {
      NoMoreBlocks(m, bs, n - 1);
    }
  }

  lemma {:induction false} PatchedAsFar(c: Data, blocks: seq<nat>, bs: nat, input: Data, n: nat)
    requires n <= |blocks|
    ensures PatchAsFar(c, blocks, bs, input, n) == PatchPrefix(c, blocks, bs, input, WholeBlocks(|input|, bs, n))
  {
    if n > 0 && Offset(n, bs) > |input| {
      PatchedAsFar(c, blocks, bs, input, n - 1);
    }
  }

  /** What is left of a file whose data end after `m` bytes: a patch stops behind the last whole block. */
  ghost function CutContent(before: Tree, after: Tree, entry: Header, bs: nat, m: nat): Data
    requires entry.Entry? && entry.path in after && m <= |PayloadOf(after, entry, bs)|
    requires entry.deltas.Some? ==> entry.path in before && entry.deltas.value.blocks != []
  {
    var p := entry.path;
    if entry.deltas.None? then after[p].content[..m]
    else
      var blocks := entry.deltas.value.blocks;
      Overwritten(before[p].content, after[p].content, bs, blocks, WholeBlocks(m, bs, |blocks| - 1))
  }

  lemma PatchIsCut(before: Data, after: Data, d: Deltas, bs: nat, m: nat)
    requires bs > 0 && d.blocks != [] && BlocksOf(d.blocks, after, bs) && m < |DeltaBytes(after, bs, d.blocks)|
    ensures var w := WholeBlocks(m, bs, |d.blocks| - 1);
            PatchAsFar(before, d.blocks, bs, DeltaBytes(after, bs, d.blocks)[..m], |d.blocks| - 1)
            == Overwritten(before, after, bs, d.blocks, w)
  {
    var all, n := DeltaBytes(after, bs, d.blocks), |d.blocks| - 1;
    var w := WholeBlocks(m, bs, n);
    PatchedAsFar(before, d.blocks, bs, all[..m], n);
    PatchPrefixOverwrites(before, after, bs, d.blocks, all, w);
    PatchPrefixIsLocal(before, d.blocks, bs, all, w, m);
  }

  /** Of a path listed with an entry: what its entry does with too few bytes. */
  lemma EntryIsCut(before: Tree, after: Tree, files: FilesMeta, bs: nat, h: Hash, level: nat, p: Path,
                   fs: Target, m: nat)
    requires bs > 0 && Describes(files, before, bs, h)
    requires p in after && !Skipped(p, after[p].stat, files)
    requires p in before ==> level > 0 && p in fs && fs[p] == ViewFile(before[p])
    requires m < |PayloadOf(after, EntryFor(p, after[p], files, bs, h), bs)|
    ensures var entry := EntryFor(p, after[p], files, bs, h);
            && (entry.deltas.Some? ==> p in before && entry.deltas.value.blocks != [])
            && RestoreOne(fs, entry, level, bs, PayloadOf(after, entry, bs)[..m])
               == After(fs[p := Partial(CutContent(before, after, entry, bs, m))], [], Starved)
  {
    var entry, f := EntryFor(p, after[p], files, bs, h), after[p];
    if entry.deltas.Some? {
      var d := entry.deltas.value;
      ScanIsBlocksOf(f.content, SignatureOf(before[p].content, bs, h), bs, h);
      ConsumedIsTotal(f.content, bs, d.blocks);
      PatchIsCut(before[p].content, f.content, d, bs, m);
    } else {
      assert (fs - {p})[p := Partial(f.content[..m])] == fs[p := Partial(f.content[..m])];
    }
  }

  // ---------- where a cut lies ----------

  /** Every position inside joined pieces is inside one of them. */
  lemma {:induction false} CutOfPieces(pieces: seq<Data>, k: nat) returns (i: nat, m: nat)
    requires k < |Flatten(pieces)|
    ensures i < |pieces| && m < |pieces[i]| && k == |Flatten(pieces[..i])| + m
    ensures Flatten(pieces)[..k] == Flatten(pieces[..i]) + pieces[i][..m]
  {
    var n := |pieces| - 1;
    LastPiece(pieces);
    TakeOfJoin(Flatten(pieces[..n]), pieces[n], k);
    if k < |Flatten(pieces[..n])| {
      i, m := CutOfPieces(pieces[..n], k);
      assert pieces[..n][..i] == pieces[..i];
    } else {
      i, m := n, k - |Flatten(pieces[..n])|;
    }
  }

  lemma LastPiece(pieces: seq<Data>)
    requires pieces != []
    ensures Flatten(pieces) == Flatten(pieces[..|pieces| - 1]) + pieces[|pieces| - 1]
  {
    FlattenSnoc(pieces[..|pieces| - 1], pieces[|pieces| - 1]);
    assert pieces[..|pieces| - 1] + [pieces[|pieces| - 1]] == pieces;
  }

  lemma TakeOfJoin(a: Data, b: Data, k: nat)
    requires k <= |a + b|
    ensures (a + b)[..k] == if k < |a| then a[..k] else a + b[..k - |a|]
  {
  }

  // ---------- one level ----------

  /** The bytes of each listed file. */
  ghost function Owns(after: Tree, listing: seq<Path>, files: FilesMeta, bs: nat, h: Hash): (pieces: seq<Data>)
    requires bs > 0 && Complete(files) && forall p :: p in listing ==> p in after
    ensures |pieces| == |listing|
    ensures forall j :: 0 <= j < |listing| ==> pieces[j] == OwnBytes(after, files, bs, h, listing[j])
  {
    seq(|listing|, j requires 0 <= j < |listing| => OwnBytes(after, files, bs, h, listing[j]))
  }

  /** The data of a level are the bytes of its files, joined. */
  lemma {:induction false} PayloadIsOwns(after: Tree, listing: seq<Path>, files: FilesMeta, bs: nat, h: Hash)
    requires bs > 0 && Complete(files) && forall p :: p in listing ==> p in after
    ensures var entries := EntriesFor(after, listing, files, bs, h);
            HeadersIn(after, entries) && Payload(after, entries, bs) == Flatten(Owns(after, listing, files, bs, h))
  {
    if listing == [] {
      assert Owns(after, listing, files, bs, h) == [];
    } else {
      PayloadIsOwns(after, listing[..|listing| - 1], files, bs, h);
      OwnsSnoc(after, listing, files, bs, h);
      PayloadSnoc(after, listing, files, bs, h);
    }
  }

  lemma OwnsOfPrefix(after: Tree, listing: seq<Path>, files: FilesMeta, bs: nat, h: Hash, i: nat)
    requires bs > 0 && Complete(files) && (forall p :: p in listing ==> p in after) && i <= |listing|
    ensures Owns(after, listing[..i], files, bs, h) == Owns(after, listing, files, bs, h)[..i]
  {
  }

  lemma OwnsSnoc(after: Tree, listing: seq<Path>, files: FilesMeta, bs: nat, h: Hash)
    requires bs > 0 && Complete(files) && (forall p :: p in listing ==> p in after) && listing != []
    ensures var n := |listing| - 1;
            Flatten(Owns(after, listing, files, bs, h))
            == Flatten(Owns(after, listing[..n], files, bs, h)) + OwnBytes(after, files, bs, h, listing[n])
  {
    LastPiece(Owns(after, listing, files, bs, h));
    OwnsOfPrefix(after, listing, files, bs, h, |listing| - 1);
  }

  lemma PayloadSnoc(after: Tree, listing: seq<Path>, files: FilesMeta, bs: nat, h: Hash)
    requires bs > 0 && Complete(files) && (forall p :: p in listing ==> p in after) && listing != []
    ensures var n := |listing| - 1;
            var early, all := EntriesFor(after, listing[..n], files, bs, h), EntriesFor(after, listing, files, bs, h);
            && HeadersIn(after, early) && HeadersIn(after, all)
            && Payload(after, all, bs) == Payload(after, early, bs) + OwnBytes(after, files, bs, h, listing[n])
  {
    var n := |listing| - 1;
    var entries, p := EntriesFor(after, listing[..n], files, bs, h), listing[n];
    EntriesInTree(after, listing[..n], files, [], bs, h);
    EntriesInTree(after, listing, files, [], bs, h);
    if Skipped(p, after[p].stat, files) {
      assert entries + [] == entries;
    } else {
      SnocHeader(after, entries, EntryFor(p, after[p], files, bs, h), bs);
    }
  }

  /** The file at position `i` of the listing is cut after `m` of its own bytes, `k` bytes into the data. */
  ghost predicate CutsAt(owns: seq<Data>, k: nat, i: nat, m: nat) {
    i < |owns| && m < |owns[i]| && k == |Flatten(owns[..i])| + m
  }

  /** What is there of a cut level: the file cut, and those before and after it. */
  ghost predicate LeavesCut(before: Tree, after: Tree, listing: seq<Path>, files: FilesMeta, bs: nat, h: Hash,
                            i: nat, m: nat, r: After)
    requires bs > 0 && Complete(files) && forall p :: p in listing ==> p in after
  {
    && i < |listing| && !Skipped(listing[i], after[listing[i]].stat, files)
    && var p := listing[i];
       var entry := EntryFor(p, after[p], files, bs, h);
       && (entry.deltas.Some? ==> p in before && entry.deltas.value.blocks != [])
       && m <= |PayloadOf(after, entry, bs)|
       && r == After(Mid(before, after, listing, i)[p := Partial(CutContent(before, after, entry, bs, m))], [], Starved)
  }

  /** Restoring the entries of the files up to the one that is cut. */
  lemma EntriesAreCut(before: Tree, after: Tree, files: FilesMeta, bs: nat, h: Hash, level: nat, listing: seq<Path>,
                      i: nat, m: nat, input: Data)
    requires bs > 0 && Describes(files, before, bs, h) && NoCollisions(before, after, bs, h)
    requires Distinct(listing) && (forall p :: p in listing ==> p in after) && (before != map[] ==> level > 0)
    requires i < |listing| && m < |OwnBytes(after, files, bs, h, listing[i])|
    requires input == Flatten(Owns(after, listing[..i], files, bs, h)) + OwnBytes(after, files, bs, h, listing[i])[..m]
    ensures LeavesCut(before, after, listing, files, bs, h, i, m,
                      RestoreAll(View(before), EntriesFor(after, listing[..i + 1], files, bs, h), level, bs, input))
  {
    var p := listing[i];
    var entries, entry := EntriesFor(after, listing[..i], files, bs, h), EntryFor(p, after[p], files, bs, h);
    PayloadIsOwns(after, listing[..i], files, bs, h);
    DescribedPatch(before, after, files, bs, h);
    EntriesRestore(before, after, files, bs, bs, h, level, listing, i, OwnBytes(after, files, bs, h, p)[..m]);
    MidStep(before, after, files, listing, i);
    EntryIsCut(before, after, files, bs, h, level, p, Mid(before, after, listing, i), m);
    EntriesSnoc(after, listing, files, bs, h, i);
    assert (entries + [entry])[..|entries|] == entries;
  }

  lemma {:induction false} EntriesPrefix(after: Tree, listing: seq<Path>, files: FilesMeta, bs: nat, h: Hash, k: nat)
    requires bs > 0 && Complete(files) && (forall p :: p in listing ==> p in after) && k <= |listing|
    ensures EntriesFor(after, listing[..k], files, bs, h) <= EntriesFor(after, listing, files, bs, h)
  {
    if k == |listing| {
      assert listing[..k] == listing;
    } else {
      var p := listing[..|listing| - 1];
      EntriesPrefix(after, p, files, bs, h, k);
      assert p[..k] == listing[..k];
    }
  }

  /** The headers behind those of the cut file are not looked at. */
  lemma LaterHeadersDoNotCount(fs: Target, entries: seq<Header>, headers: seq<Header>, level: nat, bs: nat, input: Data)
    requires bs > 0 && entries <= headers && !RestoreAll(fs, entries, level, bs, input).outcome.Done?
    ensures RestoreAll(fs, headers, level, bs, input) == RestoreAll(fs, entries, level, bs, input)
  {
    assert headers[..|entries|] == entries;
    EndPersists(fs, headers, level, bs, input, |entries|);
  }

  /** The same with the headers that follow. */
  lemma LevelIsCut(before: Tree, after: Tree, files: FilesMeta, bs: nat, h: Hash, level: nat, listing: seq<Path>,
                   i: nat, m: nat, input: Data, marks: seq<Header>)
    requires bs > 0 && Describes(files, before, bs, h) && NoCollisions(before, after, bs, h)
    requires Distinct(listing) && (forall p :: p in listing ==> p in after) && (before != map[] ==> level > 0)
    requires i < |listing| && m < |OwnBytes(after, files, bs, h, listing[i])|
    requires input == Flatten(Owns(after, listing[..i], files, bs, h)) + OwnBytes(after, files, bs, h, listing[i])[..m]
    ensures LeavesCut(before, after, listing, files, bs, h, i, m,
                      RestoreAll(View(before), EntriesFor(after, listing, files, bs, h) + marks, level, bs, input))
  {
    EntriesAreCut(before, after, files, bs, h, level, listing, i, m, input);
    EntriesPrefix(after, listing, files, bs, h, i + 1);
    LaterHeadersDoNotCount(View(before), EntriesFor(after, listing[..i + 1], files, bs, h),
                           EntriesFor(after, listing, files, bs, h) + marks, level, bs, input);
  }

  /** The marks add no data. */
  lemma LevelIsOwns(after: Tree, listing: seq<Path>, files: FilesMeta, bs: nat, h: Hash, oldListing: seq<Path>)
    requires bs > 0 && Complete(files) && forall p :: p in listing ==> p in after
    ensures var headers := EntriesFor(after, listing, files, bs, h) + DeletionsFor(after, oldListing);
            HeadersIn(after, headers) && Payload(after, headers, bs) == Flatten(Owns(after, listing, files, bs, h))
  {
    PayloadIsOwns(after, listing, files, bs, h);
    MarksAddNothing(after, EntriesFor(after, listing, files, bs, h), oldListing, bs);
  }

  /**
   * A level whose data end after `k` bytes, short of all of them: there is one listed file that they end in.
   * The files listed before it are as in the new tree; of it there is a partial file; those after it are as
   * in the old tree; nothing is deleted.
   */
  lemma CutLevelLeaves(before: Tree, after: Tree, listing: seq<Path>, oldListing: seq<Path>,
                       manifest: Option<Manifest>, configured: nat, h: Hash, level: nat, k: nat)
    returns (i: nat, m: nat)
    requires configured > 0
    requires var bs := AdoptedBlockSize(manifest, configured);
             Describes(OldFiles(manifest), before, bs, h) && NoCollisions(before, after, bs, h)
    requires Lists(listing, after.Keys) && Lists(oldListing, before.Keys)
    requires before != map[] ==> level > 0
    requires k < |LevelFor(after, listing, manifest, oldListing, configured, h).payload|
    ensures var files, bs := OldFiles(manifest), AdoptedBlockSize(manifest, configured);
            var l := LevelFor(after, listing, manifest, oldListing, configured, h);
            && CutsAt(Owns(after, listing, files, bs, h), k, i, m)
            && LeavesCut(before, after, listing, files, bs, h, i, m,
                         RestoreAll(View(before), l.headers, level, bs, l.payload[..k]))
  {
    var files, bs := OldFiles(manifest), AdoptedBlockSize(manifest, configured);
    var owns := Owns(after, listing, files, bs, h);
    LevelIsOwns(after, listing, files, bs, h, oldListing);
    i, m := CutOfPieces(owns, k);
    OwnsOfPrefix(after, listing, files, bs, h, i);
    LevelIsCut(before, after, files, bs, h, level, listing, i, m, Flatten(owns)[..k], DeletionsFor(after, oldListing));
  }
}
